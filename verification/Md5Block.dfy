/** The block function of libubox/md5.c, against section 3.4 of RFC 1321. */
module Md5Block {
  /** A word of 32 bits */
  datatype Word = Word(v: bv32)

  /** The four words A, B, C and D */
  datatype Words = Words(a: Word, b: Word, c: Word, d: Word)

  // ---------- section 3.4 of RFC 1321

  function RfcF(x: bv32, y: bv32, z: bv32): bv32 {
    (x & y) | (!x & z)
  }

  function RfcG(x: bv32, y: bv32, z: bv32): bv32 {
    (x & z) | (y & !z)
  }

  function RfcH(x: bv32, y: bv32, z: bv32): bv32 {
    x ^ y ^ z
  }

  function RfcI(x: bv32, y: bv32, z: bv32): bv32 {
    y ^ (x | !z)
  }

  /** The functions F, G, H and I, one for each round of 16 steps */
  function Aux(i: nat, x: Word, y: Word, z: Word): Word {
    Word(if i < 16 then RfcF(x.v, y.v, z.v)
         else if i < 32 then RfcG(x.v, y.v, z.v)
         else if i < 48 then RfcH(x.v, y.v, z.v)
         else RfcI(x.v, y.v, z.v))
  }

  /** Which word of the block a step takes */
  function K(i: nat): (k: nat)
    ensures k < 16
  {
    if i < 16 then i else if i < 32 then (1 + 5 * i) % 16 else if i < 48 then (5 + 3 * i) % 16 else 7 * i % 16
  }

  /** By how many bits a step rotates */
  function S(i: nat): (s: nat)
    ensures 0 < s < 32
  {
    var j := i % 4;
    if i < 16 then (if j == 0 then 7 else if j == 1 then 12 else if j == 2 then 17 else 22)
    else if i < 32 then (if j == 0 then 5 else if j == 1 then 9 else if j == 2 then 14 else 20)
    else if i < 48 then (if j == 0 then 4 else if j == 1 then 11 else if j == 2 then 16 else 23)
    else if j == 0 then 6 else if j == 1 then 10 else if j == 2 then 15 else 21
  }

  function T1(i: nat): Word {
    if i == 0 then Word(0xd76aa478) else if i == 1 then Word(0xe8c7b756) else if i == 2 then Word(0x242070db)
    else if i == 3 then Word(0xc1bdceee) else if i == 4 then Word(0xf57c0faf) else if i == 5 then Word(0x4787c62a)
    else if i == 6 then Word(0xa8304613) else if i == 7 then Word(0xfd469501) else if i == 8 then Word(0x698098d8)
    else if i == 9 then Word(0x8b44f7af) else if i == 10 then Word(0xffff5bb1) else if i == 11 then Word(0x895cd7be)
    else if i == 12 then Word(0x6b901122) else if i == 13 then Word(0xfd987193) else if i == 14 then Word(0xa679438e)
    else Word(0x49b40821)
  }

  function T2(i: nat): Word {
    if i == 16 then Word(0xf61e2562) else if i == 17 then Word(0xc040b340) else if i == 18 then Word(0x265e5a51)
    else if i == 19 then Word(0xe9b6c7aa) else if i == 20 then Word(0xd62f105d) else if i == 21 then Word(0x02441453)
    else if i == 22 then Word(0xd8a1e681) else if i == 23 then Word(0xe7d3fbc8) else if i == 24 then Word(0x21e1cde6)
    else if i == 25 then Word(0xc33707d6) else if i == 26 then Word(0xf4d50d87) else if i == 27 then Word(0x455a14ed)
    else if i == 28 then Word(0xa9e3e905) else if i == 29 then Word(0xfcefa3f8) else if i == 30 then Word(0x676f02d9)
    else Word(0x8d2a4c8a)
  }

  function T3(i: nat): Word {
    if i == 32 then Word(0xfffa3942) else if i == 33 then Word(0x8771f681) else if i == 34 then Word(0x6d9d6122)
    else if i == 35 then Word(0xfde5380c) else if i == 36 then Word(0xa4beea44) else if i == 37 then Word(0x4bdecfa9)
    else if i == 38 then Word(0xf6bb4b60) else if i == 39 then Word(0xbebfbc70) else if i == 40 then Word(0x289b7ec6)
    else if i == 41 then Word(0xeaa127fa) else if i == 42 then Word(0xd4ef3085) else if i == 43 then Word(0x04881d05)
    else if i == 44 then Word(0xd9d4d039) else if i == 45 then Word(0xe6db99e5) else if i == 46 then Word(0x1fa27cf8)
    else Word(0xc4ac5665)
  }

  function T4(i: nat): Word {
    if i == 48 then Word(0xf4292244) else if i == 49 then Word(0x432aff97) else if i == 50 then Word(0xab9423a7)
    else if i == 51 then Word(0xfc93a039) else if i == 52 then Word(0x655b59c3) else if i == 53 then Word(0x8f0ccc92)
    else if i == 54 then Word(0xffeff47d) else if i == 55 then Word(0x85845dd1) else if i == 56 then Word(0x6fa87e4f)
    else if i == 57 then Word(0xfe2ce6e0) else if i == 58 then Word(0xa3014314) else if i == 59 then Word(0x4e0811a1)
    else if i == 60 then Word(0xf7537e82) else if i == 61 then Word(0xbd3af235) else if i == 62 then Word(0x2ad7d2bb)
    else Word(0xeb86d391)
  }

  /** The table of section 3.4: the integer part of 2^32 times abs(sin(i + 1)) */
  function T(i: nat): Word {
    if i < 16 then T1(i) else if i < 32 then T2(i) else if i < 48 then T3(i) else T4(i)
  }

  /** The bits of two words, shifted together */
  function Shifted(x: Word, y: Word, s: nat): Word
    requires 0 < s < 32
  {
    Word((x.v << s) | (y.v >> (32 - s)))
  }

  function Rotated(x: Word, s: nat): Word
    requires 0 < s < 32
  {
    Shifted(x, x, s)
  }

  /** The sum in front of a rotation */
  function Total(a: Word, f: Word, x: Word, t: Word): Word {
    Word(a.v + (f.v + x.v + t.v))
  }

  /** The sum behind it */
  function Plus(x: Word, y: Word): Word {
    Word(x.v + y.v)
  }

  function Mixed(f: Word, a: Word, b: Word, x: Word, t: Word, s: nat): Word
    requires 0 < s < 32
  {
    Plus(Rotated(Total(a, f, x, t), s), b)
  }

  /** b + ((a + F(b, c, d) + X[k] + T[i]) <<< s), and so on. The order of the additions, which are modulo 2^32, is that
      of STEP. */
  function Value(i: nat, a: Word, b: Word, c: Word, d: Word, x: seq<Word>): Word
    requires |x| == 16
  {
    Mixed(Aux(i, b, c, d), a, b, x[K(i)], T(i), S(i))
  }

  /** The steps from the i-th on: each replaces one of the four words, in turn. */
  function Steps(w: Words, i: nat, x: seq<Word>): Words
    requires |x| == 16 && i <= 64
    decreases 64 - i
  {
    if i == 64 then w else Steps(Words(w.d, Value(i, w.a, w.b, w.c, w.d, x), w.b, w.c), i + 1, x)
  }

  function Sum(v: Words, w: Words): Words {
    Words(Plus(v.a, w.a), Plus(v.b, w.b), Plus(v.c, w.c), Plus(v.d, w.d))
  }

  /** All that is done to the words for one block */
  function Block(w: Words, x: seq<Word>): Words
    requires |x| == 16
  {
    Sum(Steps(w, 0, x), w)
  }

  /** Four steps replace all four words. */
  lemma Quarter(w: Words, i: nat, x: seq<Word>)
    requires |x| == 16 && i + 4 <= 64
    ensures var a := Value(i, w.a, w.b, w.c, w.d, x);
      var d := Value(i + 1, w.d, a, w.b, w.c, x);
      var c := Value(i + 2, w.c, d, a, w.b, x);
      var b := Value(i + 3, w.b, c, d, a, x);
      Steps(w, i, x) == Steps(Words(a, b, c, d), i + 4, x)
  {
    hide Value;
    var a := Value(i, w.a, w.b, w.c, w.d, x);
    var d := Value(i + 1, w.d, a, w.b, w.c, x);
    var c := Value(i + 2, w.c, d, a, w.b, x);
    var b := Value(i + 3, w.b, c, d, a, x);
    assert Steps(w, i, x) == Steps(Words(w.d, a, w.b, w.c), i + 1, x);
    assert Steps(Words(w.d, a, w.b, w.c), i + 1, x) == Steps(Words(w.c, d, a, w.b), i + 2, x);
    assert Steps(Words(w.c, d, a, w.b), i + 2, x) == Steps(Words(w.b, c, d, a), i + 3, x);
    assert Steps(Words(w.b, c, d, a), i + 3, x) == Steps(Words(a, b, c, d), i + 4, x);
  }

  // ---------- the macros

  function F(x: bv32, y: bv32, z: bv32): bv32 {
    z ^ (x & (y ^ z))
  }

  function G(x: bv32, y: bv32, z: bv32): bv32 {
    y ^ (z & (x ^ y))
  }

  function H(x: bv32, y: bv32, z: bv32): bv32 {
    (x ^ y) ^ z
  }

  function H2(x: bv32, y: bv32, z: bv32): bv32 {
    x ^ (y ^ z)
  }

  function I(x: bv32, y: bv32, z: bv32): bv32 {
    y ^ (x | !z)
  }

  /** The forms of F and G that need no AND-NOT, and both orders of H, are those of section 3.4. */
  lemma MacrosAreRfc(x: bv32, y: bv32, z: bv32)
    ensures F(x, y, z) == RfcF(x, y, z) && G(x, y, z) == RfcG(x, y, z)
    ensures H(x, y, z) == H2(x, y, z) == RfcH(x, y, z) && I(x, y, z) == RfcI(x, y, z)
  {
    hide F, G, H, H2, I, RfcF, RfcG, RfcH, RfcI;
    FIsRfc(x, y, z);
    GIsRfc(x, y, z);
    HIsRfc(x, y, z);
    H2IsRfc(x, y, z);
    IIsRfc(x, y, z);
  }

  lemma FIsRfc(x: bv32, y: bv32, z: bv32)
    ensures F(x, y, z) == RfcF(x, y, z)
  {
    assert z ^ (x & (y ^ z)) == (x & y) | (!x & z);
  }

  lemma GIsRfc(x: bv32, y: bv32, z: bv32)
    ensures G(x, y, z) == RfcG(x, y, z)
  {
    assert y ^ (z & (x ^ y)) == (x & z) | (y & !z);
  }

  lemma HIsRfc(x: bv32, y: bv32, z: bv32)
    ensures H(x, y, z) == RfcH(x, y, z)
  {
  }

  lemma H2IsRfc(x: bv32, y: bv32, z: bv32)
    ensures H2(x, y, z) == RfcH(x, y, z)
  {
    assert (x ^ y) ^ z == x ^ (y ^ z);
  }

  lemma IIsRfc(x: bv32, y: bv32, z: bv32)
    ensures I(x, y, z) == RfcI(x, y, z)
  {
  }

  function Masked(x: Word): Word {
    Word(x.v & 0xffffffff)
  }

  /** STEP, for a value of one of the macros */
  function Step(f: Word, a: Word, b: Word, x: Word, t: Word, s: nat): Word
    requires 0 < s < 32
  {
    var sum := Total(a, f, x, t);
    Plus(Shifted(sum, Masked(sum), s), b)
  }

  lemma StepIsValue(i: nat, f: Word, a: Word, b: Word, c: Word, d: Word, x: seq<Word>)
    requires |x| == 16 && f == Aux(i, b, c, d)
    ensures Step(f, a, b, x[K(i)], T(i), S(i)) == Value(i, a, b, c, d, x)
  {
    hide Aux, K, T, S, Step, Mixed;
    StepShape(Aux(i, b, c, d), a, b, x[K(i)], T(i), S(i));
  }

  lemma StepShape(f: Word, a: Word, b: Word, x: Word, t: Word, s: nat)
    requires 0 < s < 32
    ensures Step(f, a, b, x, t, s) == Mixed(f, a, b, x, t, s)
  {
    hide Shifted, Masked, Total, Plus;
    MaskAll(Total(a, f, x, t));
  }

  lemma MaskAll(x: Word)
    ensures Masked(x) == x
  {
  }

  // ---------- the rounds as they are written

  function StepF(ghost i: nat, a: Word, b: Word, c: Word, d: Word, ghost x: seq<Word>, xk: Word, t: Word,
      s: nat): (r: Word)
    requires 0 <= i < 16 && |x| == 16 && xk == x[K(i)] && t == T(i) && s == S(i)
    ensures r == Value(i, a, b, c, d, x)
  {
    hide F, G, H, H2, I, Step, Value, K, T, S, RfcF, RfcG, RfcH, RfcI;
    MacrosAreRfc(b.v, c.v, d.v);
    StepIsValue(i, Word(F(b.v, c.v, d.v)), a, b, c, d, x);
    Step(Word(F(b.v, c.v, d.v)), a, b, xk, t, s)
  }

  function StepG(ghost i: nat, a: Word, b: Word, c: Word, d: Word, ghost x: seq<Word>, xk: Word, t: Word,
      s: nat): (r: Word)
    requires 16 <= i < 32 && |x| == 16 && xk == x[K(i)] && t == T(i) && s == S(i)
    ensures r == Value(i, a, b, c, d, x)
  {
    hide F, G, H, H2, I, Step, Value, K, T, S, RfcF, RfcG, RfcH, RfcI;
    MacrosAreRfc(b.v, c.v, d.v);
    StepIsValue(i, Word(G(b.v, c.v, d.v)), a, b, c, d, x);
    Step(Word(G(b.v, c.v, d.v)), a, b, xk, t, s)
  }

  function StepH(ghost i: nat, a: Word, b: Word, c: Word, d: Word, ghost x: seq<Word>, xk: Word, t: Word,
      s: nat): (r: Word)
    requires 32 <= i < 48 && |x| == 16 && xk == x[K(i)] && t == T(i) && s == S(i)
    ensures r == Value(i, a, b, c, d, x)
  {
    hide F, G, H, H2, I, Step, Value, K, T, S, RfcF, RfcG, RfcH, RfcI;
    MacrosAreRfc(b.v, c.v, d.v);
    StepIsValue(i, Word(H(b.v, c.v, d.v)), a, b, c, d, x);
    Step(Word(H(b.v, c.v, d.v)), a, b, xk, t, s)
  }

  function StepH2(ghost i: nat, a: Word, b: Word, c: Word, d: Word, ghost x: seq<Word>, xk: Word, t: Word,
      s: nat): (r: Word)
    requires 32 <= i < 48 && |x| == 16 && xk == x[K(i)] && t == T(i) && s == S(i)
    ensures r == Value(i, a, b, c, d, x)
  {
    hide F, G, H, H2, I, Step, Value, K, T, S, RfcF, RfcG, RfcH, RfcI;
    MacrosAreRfc(b.v, c.v, d.v);
    StepIsValue(i, Word(H2(b.v, c.v, d.v)), a, b, c, d, x);
    Step(Word(H2(b.v, c.v, d.v)), a, b, xk, t, s)
  }

  function StepI(ghost i: nat, a: Word, b: Word, c: Word, d: Word, ghost x: seq<Word>, xk: Word, t: Word,
      s: nat): (r: Word)
    requires 48 <= i < 64 && |x| == 16 && xk == x[K(i)] && t == T(i) && s == S(i)
    ensures r == Value(i, a, b, c, d, x)
  {
    hide F, G, H, H2, I, Step, Value, K, T, S, RfcF, RfcG, RfcH, RfcI;
    MacrosAreRfc(b.v, c.v, d.v);
    StepIsValue(i, Word(I(b.v, c.v, d.v)), a, b, c, d, x);
    Step(Word(I(b.v, c.v, d.v)), a, b, xk, t, s)
  }

  lemma Arguments1()
    ensures K(0) == 0 && K(1) == 1 && K(2) == 2 && K(3) == 3
    ensures S(0) == 7 && S(1) == 12 && S(2) == 17 && S(3) == 22
    ensures T(0) == Word(0xd76aa478) && T(1) == Word(0xe8c7b756) && T(2) == Word(0x242070db) && T(3) == Word(0xc1bdceee)
  {
  }

  lemma Arguments2()
    ensures K(4) == 4 && K(5) == 5 && K(6) == 6 && K(7) == 7
    ensures S(4) == 7 && S(5) == 12 && S(6) == 17 && S(7) == 22
    ensures T(4) == Word(0xf57c0faf) && T(5) == Word(0x4787c62a) && T(6) == Word(0xa8304613) && T(7) == Word(0xfd469501)
  {
  }

  lemma Arguments3()
    ensures K(8) == 8 && K(9) == 9 && K(10) == 10 && K(11) == 11
    ensures S(8) == 7 && S(9) == 12 && S(10) == 17 && S(11) == 22
    ensures T(8) == Word(0x698098d8) && T(9) == Word(0x8b44f7af) && T(10) == Word(0xffff5bb1)
      && T(11) == Word(0x895cd7be)
  {
  }

  lemma Arguments4()
    ensures K(12) == 12 && K(13) == 13 && K(14) == 14 && K(15) == 15
    ensures S(12) == 7 && S(13) == 12 && S(14) == 17 && S(15) == 22
    ensures T(12) == Word(0x6b901122) && T(13) == Word(0xfd987193) && T(14) == Word(0xa679438e)
      && T(15) == Word(0x49b40821)
  {
  }

  lemma Arguments5()
    ensures K(16) == 1 && K(17) == 6 && K(18) == 11 && K(19) == 0
    ensures S(16) == 5 && S(17) == 9 && S(18) == 14 && S(19) == 20
    ensures T(16) == Word(0xf61e2562) && T(17) == Word(0xc040b340) && T(18) == Word(0x265e5a51)
      && T(19) == Word(0xe9b6c7aa)
  {
  }

  lemma Arguments6()
    ensures K(20) == 5 && K(21) == 10 && K(22) == 15 && K(23) == 4
    ensures S(20) == 5 && S(21) == 9 && S(22) == 14 && S(23) == 20
    ensures T(20) == Word(0xd62f105d) && T(21) == Word(0x02441453) && T(22) == Word(0xd8a1e681)
      && T(23) == Word(0xe7d3fbc8)
  {
  }

  lemma Arguments7()
    ensures K(24) == 9 && K(25) == 14 && K(26) == 3 && K(27) == 8
    ensures S(24) == 5 && S(25) == 9 && S(26) == 14 && S(27) == 20
    ensures T(24) == Word(0x21e1cde6) && T(25) == Word(0xc33707d6) && T(26) == Word(0xf4d50d87)
      && T(27) == Word(0x455a14ed)
  {
  }

  lemma Arguments8()
    ensures K(28) == 13 && K(29) == 2 && K(30) == 7 && K(31) == 12
    ensures S(28) == 5 && S(29) == 9 && S(30) == 14 && S(31) == 20
    ensures T(28) == Word(0xa9e3e905) && T(29) == Word(0xfcefa3f8) && T(30) == Word(0x676f02d9)
      && T(31) == Word(0x8d2a4c8a)
  {
  }

  lemma Arguments9()
    ensures K(32) == 5 && K(33) == 8 && K(34) == 11 && K(35) == 14
    ensures S(32) == 4 && S(33) == 11 && S(34) == 16 && S(35) == 23
    ensures T(32) == Word(0xfffa3942) && T(33) == Word(0x8771f681) && T(34) == Word(0x6d9d6122)
      && T(35) == Word(0xfde5380c)
  {
  }

  lemma Arguments10()
    ensures K(36) == 1 && K(37) == 4 && K(38) == 7 && K(39) == 10
    ensures S(36) == 4 && S(37) == 11 && S(38) == 16 && S(39) == 23
    ensures T(36) == Word(0xa4beea44) && T(37) == Word(0x4bdecfa9) && T(38) == Word(0xf6bb4b60)
      && T(39) == Word(0xbebfbc70)
  {
  }

  lemma Arguments11()
    ensures K(40) == 13 && K(41) == 0 && K(42) == 3 && K(43) == 6
    ensures S(40) == 4 && S(41) == 11 && S(42) == 16 && S(43) == 23
    ensures T(40) == Word(0x289b7ec6) && T(41) == Word(0xeaa127fa) && T(42) == Word(0xd4ef3085)
      && T(43) == Word(0x04881d05)
  {
  }

  lemma Arguments12()
    ensures K(44) == 9 && K(45) == 12 && K(46) == 15 && K(47) == 2
    ensures S(44) == 4 && S(45) == 11 && S(46) == 16 && S(47) == 23
    ensures T(44) == Word(0xd9d4d039) && T(45) == Word(0xe6db99e5) && T(46) == Word(0x1fa27cf8)
      && T(47) == Word(0xc4ac5665)
  {
  }

  lemma Arguments13()
    ensures K(48) == 0 && K(49) == 7 && K(50) == 14 && K(51) == 5
    ensures S(48) == 6 && S(49) == 10 && S(50) == 15 && S(51) == 21
    ensures T(48) == Word(0xf4292244) && T(49) == Word(0x432aff97) && T(50) == Word(0xab9423a7)
      && T(51) == Word(0xfc93a039)
  {
  }

  lemma Arguments14()
    ensures K(52) == 12 && K(53) == 3 && K(54) == 10 && K(55) == 1
    ensures S(52) == 6 && S(53) == 10 && S(54) == 15 && S(55) == 21
    ensures T(52) == Word(0x655b59c3) && T(53) == Word(0x8f0ccc92) && T(54) == Word(0xffeff47d)
      && T(55) == Word(0x85845dd1)
  {
  }

  lemma Arguments15()
    ensures K(56) == 8 && K(57) == 15 && K(58) == 6 && K(59) == 13
    ensures S(56) == 6 && S(57) == 10 && S(58) == 15 && S(59) == 21
    ensures T(56) == Word(0x6fa87e4f) && T(57) == Word(0xfe2ce6e0) && T(58) == Word(0xa3014314)
      && T(59) == Word(0x4e0811a1)
  {
  }

  lemma Arguments16()
    ensures K(60) == 4 && K(61) == 11 && K(62) == 2 && K(63) == 9
    ensures S(60) == 6 && S(61) == 10 && S(62) == 15 && S(63) == 21
    ensures T(60) == Word(0xf7537e82) && T(61) == Word(0xbd3af235) && T(62) == Word(0x2ad7d2bb)
      && T(63) == Word(0xeb86d391)
  {
  }

  /** Round 1 */
  method Round1(a0: Word, b0: Word, c0: Word, d0: Word, x: seq<Word>) returns (a: Word, b: Word, c: Word, d: Word)
    requires |x| == 16
    ensures Steps(Words(a0, b0, c0, d0), 0, x) == Steps(Words(a, b, c, d), 16, x)
  {
    hide Value, Steps, K, T, S;
    a, b, c, d := a0, b0, c0, d0;
    Arguments1();
    Quarter(Words(a, b, c, d), 0, x);
    a := StepF(0, a, b, c, d, x, x[0], Word(0xd76aa478), 7);
    d := StepF(1, d, a, b, c, x, x[1], Word(0xe8c7b756), 12);
    c := StepF(2, c, d, a, b, x, x[2], Word(0x242070db), 17);
    b := StepF(3, b, c, d, a, x, x[3], Word(0xc1bdceee), 22);
    Arguments2();
    Quarter(Words(a, b, c, d), 4, x);
    a := StepF(4, a, b, c, d, x, x[4], Word(0xf57c0faf), 7);
    d := StepF(5, d, a, b, c, x, x[5], Word(0x4787c62a), 12);
    c := StepF(6, c, d, a, b, x, x[6], Word(0xa8304613), 17);
    b := StepF(7, b, c, d, a, x, x[7], Word(0xfd469501), 22);
    Arguments3();
    Quarter(Words(a, b, c, d), 8, x);
    a := StepF(8, a, b, c, d, x, x[8], Word(0x698098d8), 7);
    d := StepF(9, d, a, b, c, x, x[9], Word(0x8b44f7af), 12);
    c := StepF(10, c, d, a, b, x, x[10], Word(0xffff5bb1), 17);
    b := StepF(11, b, c, d, a, x, x[11], Word(0x895cd7be), 22);
    Arguments4();
    Quarter(Words(a, b, c, d), 12, x);
    a := StepF(12, a, b, c, d, x, x[12], Word(0x6b901122), 7);
    d := StepF(13, d, a, b, c, x, x[13], Word(0xfd987193), 12);
    c := StepF(14, c, d, a, b, x, x[14], Word(0xa679438e), 17);
    b := StepF(15, b, c, d, a, x, x[15], Word(0x49b40821), 22);
  }

  /** Round 2 */
  method Round2(a0: Word, b0: Word, c0: Word, d0: Word, x: seq<Word>) returns (a: Word, b: Word, c: Word, d: Word)
    requires |x| == 16
    ensures Steps(Words(a0, b0, c0, d0), 16, x) == Steps(Words(a, b, c, d), 32, x)
  {
    hide Value, Steps, K, T, S;
    a, b, c, d := a0, b0, c0, d0;
    Arguments5();
    Quarter(Words(a, b, c, d), 16, x);
    a := StepG(16, a, b, c, d, x, x[1], Word(0xf61e2562), 5);
    d := StepG(17, d, a, b, c, x, x[6], Word(0xc040b340), 9);
    c := StepG(18, c, d, a, b, x, x[11], Word(0x265e5a51), 14);
    b := StepG(19, b, c, d, a, x, x[0], Word(0xe9b6c7aa), 20);
    Arguments6();
    Quarter(Words(a, b, c, d), 20, x);
    a := StepG(20, a, b, c, d, x, x[5], Word(0xd62f105d), 5);
    d := StepG(21, d, a, b, c, x, x[10], Word(0x02441453), 9);
    c := StepG(22, c, d, a, b, x, x[15], Word(0xd8a1e681), 14);
    b := StepG(23, b, c, d, a, x, x[4], Word(0xe7d3fbc8), 20);
    Arguments7();
    Quarter(Words(a, b, c, d), 24, x);
    a := StepG(24, a, b, c, d, x, x[9], Word(0x21e1cde6), 5);
    d := StepG(25, d, a, b, c, x, x[14], Word(0xc33707d6), 9);
    c := StepG(26, c, d, a, b, x, x[3], Word(0xf4d50d87), 14);
    b := StepG(27, b, c, d, a, x, x[8], Word(0x455a14ed), 20);
    Arguments8();
    Quarter(Words(a, b, c, d), 28, x);
    a := StepG(28, a, b, c, d, x, x[13], Word(0xa9e3e905), 5);
    d := StepG(29, d, a, b, c, x, x[2], Word(0xfcefa3f8), 9);
    c := StepG(30, c, d, a, b, x, x[7], Word(0x676f02d9), 14);
    b := StepG(31, b, c, d, a, x, x[12], Word(0x8d2a4c8a), 20);
  }

  /** Round 3 */
  method Round3(a0: Word, b0: Word, c0: Word, d0: Word, x: seq<Word>) returns (a: Word, b: Word, c: Word, d: Word)
    requires |x| == 16
    ensures Steps(Words(a0, b0, c0, d0), 32, x) == Steps(Words(a, b, c, d), 48, x)
  {
    hide Value, Steps, K, T, S;
    a, b, c, d := a0, b0, c0, d0;
    Arguments9();
    Quarter(Words(a, b, c, d), 32, x);
    a := StepH(32, a, b, c, d, x, x[5], Word(0xfffa3942), 4);
    d := StepH2(33, d, a, b, c, x, x[8], Word(0x8771f681), 11);
    c := StepH(34, c, d, a, b, x, x[11], Word(0x6d9d6122), 16);
    b := StepH2(35, b, c, d, a, x, x[14], Word(0xfde5380c), 23);
    Arguments10();
    Quarter(Words(a, b, c, d), 36, x);
    a := StepH(36, a, b, c, d, x, x[1], Word(0xa4beea44), 4);
    d := StepH2(37, d, a, b, c, x, x[4], Word(0x4bdecfa9), 11);
    c := StepH(38, c, d, a, b, x, x[7], Word(0xf6bb4b60), 16);
    b := StepH2(39, b, c, d, a, x, x[10], Word(0xbebfbc70), 23);
    Arguments11();
    Quarter(Words(a, b, c, d), 40, x);
    a := StepH(40, a, b, c, d, x, x[13], Word(0x289b7ec6), 4);
    d := StepH2(41, d, a, b, c, x, x[0], Word(0xeaa127fa), 11);
    c := StepH(42, c, d, a, b, x, x[3], Word(0xd4ef3085), 16);
    b := StepH2(43, b, c, d, a, x, x[6], Word(0x04881d05), 23);
    Arguments12();
    Quarter(Words(a, b, c, d), 44, x);
    a := StepH(44, a, b, c, d, x, x[9], Word(0xd9d4d039), 4);
    d := StepH2(45, d, a, b, c, x, x[12], Word(0xe6db99e5), 11);
    c := StepH(46, c, d, a, b, x, x[15], Word(0x1fa27cf8), 16);
    b := StepH2(47, b, c, d, a, x, x[2], Word(0xc4ac5665), 23);
  }

  /** Round 4 */
  method Round4(a0: Word, b0: Word, c0: Word, d0: Word, x: seq<Word>) returns (a: Word, b: Word, c: Word, d: Word)
    requires |x| == 16
    ensures Steps(Words(a0, b0, c0, d0), 48, x) == Steps(Words(a, b, c, d), 64, x)
  {
    hide Value, Steps, K, T, S;
    a, b, c, d := a0, b0, c0, d0;
    Arguments13();
    Quarter(Words(a, b, c, d), 48, x);
    a := StepI(48, a, b, c, d, x, x[0], Word(0xf4292244), 6);
    d := StepI(49, d, a, b, c, x, x[7], Word(0x432aff97), 10);
    c := StepI(50, c, d, a, b, x, x[14], Word(0xab9423a7), 15);
    b := StepI(51, b, c, d, a, x, x[5], Word(0xfc93a039), 21);
    Arguments14();
    Quarter(Words(a, b, c, d), 52, x);
    a := StepI(52, a, b, c, d, x, x[12], Word(0x655b59c3), 6);
    d := StepI(53, d, a, b, c, x, x[3], Word(0x8f0ccc92), 10);
    c := StepI(54, c, d, a, b, x, x[10], Word(0xffeff47d), 15);
    b := StepI(55, b, c, d, a, x, x[1], Word(0x85845dd1), 21);
    Arguments15();
    Quarter(Words(a, b, c, d), 56, x);
    a := StepI(56, a, b, c, d, x, x[8], Word(0x6fa87e4f), 6);
    d := StepI(57, d, a, b, c, x, x[15], Word(0xfe2ce6e0), 10);
    c := StepI(58, c, d, a, b, x, x[6], Word(0xa3014314), 15);
    b := StepI(59, b, c, d, a, x, x[13], Word(0x4e0811a1), 21);
    Arguments16();
    Quarter(Words(a, b, c, d), 60, x);
    a := StepI(60, a, b, c, d, x, x[4], Word(0xf7537e82), 6);
    d := StepI(61, d, a, b, c, x, x[11], Word(0xbd3af235), 10);
    c := StepI(62, c, d, a, b, x, x[2], Word(0x2ad7d2bb), 15);
    b := StepI(63, b, c, d, a, x, x[9], Word(0xeb86d391), 21);
  }

  lemma Start(w: Words, x: seq<Word>)
    requires |x| == 16
    ensures w == Words(w.a, w.b, w.c, w.d) && forall v :: Steps(v, 64, x) == v
  {
  }

  /** The four rounds for one block */
  method Rounds(w: Words, x: seq<Word>) returns (r: Words)
    requires |x| == 16
    ensures r == Block(w, x)
  {
    hide Value, Steps, Plus;
    Start(w, x);
    var a, b, c, d := Round1(w.a, w.b, w.c, w.d, x);
    a, b, c, d := Round2(a, b, c, d, x);
    a, b, c, d := Round3(a, b, c, d, x);
    a, b, c, d := Round4(a, b, c, d, x);
    r := Words(Plus(a, w.a), Plus(b, w.b), Plus(c, w.c), Plus(d, w.d));
  }
}
