/** libubox/base64.c, and what it implements: section 4 of RFC 4648, with the strictness of section 3.5. */
module Base64 {
  import opened Strings
  import opened JsonValue
  import Bytes

  type Byte = Bytes.Byte

  /** A group of six bits */
  type Sextet = v: nat | v < 64

  const UPPER := "ABCDEFGHIJKLMNOPQRSTUVWXYZ"
  const LOWER := "abcdefghijklmnopqrstuvwxyz"
  const OTHERS := "0123456789+/"
  const ALPHABET := UPPER + LOWER + OTHERS
  const PAD := '='

  /** The character of a value */
  function Char(v: Sextet): (c: char)
    ensures c != PAD && !IsBlank(c)
  {
    if v < 26 then 'A' + v as char
    else if v < 52 then 'a' + (v - 26) as char
    else if v < 62 then '0' + (v - 52) as char
    else if v == 62 then '+' else '/'
  }

  /** The table of the source, by value */
  lemma CharIsInAlphabet(v: Sextet)
    ensures |ALPHABET| == 64 && ALPHABET[v] == Char(v)
  {
    if v < 26 {
      UpperAt(v);
    } else if v < 52 {
      LowerAt(v - 26);
    } else {
      OtherAt(v);
    }
  }

  lemma UpperAt(i: nat)
    requires i < 26
    ensures |UPPER| == 26 && UPPER[i] == 'A' + i as char
  {
  }

  lemma LowerAt(i: nat)
    requires i < 26
    ensures |LOWER| == 26 && LOWER[i] == 'a' + i as char
  {
  }

  lemma OtherAt(v: Sextet)
    requires v >= 52
    ensures |OTHERS| == 12 && OTHERS[v-52] == Char(v)
  {
  }

  /** strchr(Base64, c) - Base64 */
  function Value(c: char): (r: Option<Sextet>)
    ensures r.Some? ==> Char(r.value) == c
  {
    if 'A' <= c <= 'Z' then Some((c - 'A') as nat)
    else if 'a' <= c <= 'z' then Some((c - 'a') as nat + 26)
    else if '0' <= c <= '9' then Some((c - '0') as nat + 52)
    else if c == '+' then Some(62) else if c == '/' then Some(63) else None
  }

  lemma ValueOfChar(v: Sextet)
    ensures Value(Char(v)) == Some(v)
  {
  }

  /** isspace */
  predicate IsBlank(c: char) {
    c == ' ' || '\t' <= c <= '\r'
  }

  // ---------- encoding

  /** The values that stand for some bytes */
  function Digits(b: seq<Byte>): (d: seq<Sextet>)
    ensures |d| == |b| + (|b| + 2) / 3
  {
    if |b| == 0 then []
    else if |b| == 1 then [b[0] / 4, b[0] % 4 * 16]
    else if |b| == 2 then [b[0] / 4, b[0] % 4 * 16 + b[1] / 16, b[1] % 16 * 4]
    else [b[0] / 4, b[0] % 4 * 16 + b[1] / 16, b[1] % 16 * 4 + b[2] / 64, b[2] % 64] + Digits(b[3..])
  }

  function Text(d: seq<Sextet>): (s: string)
    ensures |s| == |d|
  {
    seq(|d|, i requires 0 <= i < |d| => Char(d[i]))
  }

  function Padding(n: nat): string {
    if n % 3 == 0 then "" else if n % 3 == 1 then "==" else "="
  }

  /** Section 4 of RFC 4648 */
  function Encode(b: seq<Byte>): (s: string)
    ensures |s| == (|b| + 2) / 3 * 4
  {
    Text(Digits(b)) + Padding(|b|)
  }

  lemma TextConcat(d: seq<Sextet>, e: seq<Sextet>)
    ensures Text(d + e) == Text(d) + Text(e)
  {
  }

  /** B64_ENCODE_LEN */
  function EncodeLen(n: nat): nat {
    (n + 2) / 3 * 4 + 1
  }

  /** target[datalength++] = ..., four times */
  method Write(target: array<char>, datalength: nat, c0: char, c1: char, c2: char, c3: char)
    requires datalength + 4 <= target.Length
    modifies target
    ensures target[..datalength + 4] == old(target[..datalength]) + [c0, c1, c2, c3]
  {
    target[datalength] := c0;
    target[datalength + 1] := c1;
    target[datalength + 2] := c2;
    target[datalength + 3] := c3;
  }

  /** What a group of three bytes becomes */
  function Group(in0: Byte, in1: Byte, in2: Byte): (d: seq<Sextet>)
    ensures |d| == 4
  {
    [in0 / 4, in0 % 4 * 16 + in1 / 16, in1 % 16 * 4 + in2 / 64, in2 % 64]
  }

  /** b64_encode */
  method B64Encode(src: seq<Byte>, target: array<char>) returns (result: int)
    modifies target
    ensures result == -1 <==> target.Length < EncodeLen(|src|)
    ensures result != -1 ==> result == |Encode(src)| && target[..result + 1] == Encode(src) + [NUL]
  {
    hide Char, Digits, Text, Padding;
    var datalength := 0;
    var i := 0;
    ghost var done: string := "";
    assert src[0..] == src;
    while 2 < |src| - i
      invariant i <= |src| && i % 3 == 0 && datalength == i / 3 * 4 <= target.Length
      invariant target[..datalength] == done && done + Text(Digits(src[i..])) == Text(Digits(src))
    {
      var output := Group(src[i], src[i+1], src[i+2]);
      if datalength + 4 > target.Length {
        return -1;
      }
      GroupText(src, i);
      Write(target, datalength, Char(output[0]), Char(output[1]), Char(output[2]), Char(output[3]));
      Associate(done, [Char(output[0]), Char(output[1]), Char(output[2]), Char(output[3])], Text(Digits(src[i+3..])));
      done := done + [Char(output[0]), Char(output[1]), Char(output[2]), Char(output[3])];
      datalength := datalength + 4;
      i := i + 3;
    }
    LastText(src, i);
    Associate(done, Text(Digits(src[i..])), Padding(|src|));
    if i != |src| {
      var output := Group(src[i], if i + 1 < |src| then src[i+1] else 0, 0);
      if datalength + 4 > target.Length {
        return -1;
      }
      Write(target, datalength, Char(output[0]), Char(output[1]), if |src| - i == 1 then PAD else Char(output[2]), PAD);
      datalength := datalength + 4;
    }
    assert target[..datalength] == Encode(src);
    if datalength >= target.Length {
      return -1;
    }
    target[datalength] := NUL;
    return datalength;
  }

  lemma Associate<T>(a: seq<T>, b: seq<T>, c: seq<T>)
    ensures (a + b) + c == a + (b + c)
  {
  }

  lemma DigitsOfGroup(x: Byte, y: Byte, z: Byte, rest: seq<Byte>)
    ensures Digits([x, y, z] + rest) == Group(x, y, z) + Digits(rest)
  {
    assert ([x, y, z] + rest)[3..] == rest;
  }

  lemma DigitsOfTwo(x: Byte, y: Byte)
    ensures Digits([x]) == [x / 4, x % 4 * 16]
    ensures Digits([x, y]) == [x / 4, x % 4 * 16 + y / 16, y % 16 * 4]
  {
  }

  lemma GroupText(src: seq<Byte>, i: nat)
    requires i + 3 <= |src|
    ensures var g := Group(src[i], src[i+1], src[i+2]);
      Text(Digits(src[i..])) == [Char(g[0]), Char(g[1]), Char(g[2]), Char(g[3])] + Text(Digits(src[i+3..]))
  {
    hide Digits, Char;
    var g := Group(src[i], src[i+1], src[i+2]);
    assert src[i..] == [src[i], src[i+1], src[i+2]] + src[i+3..];
    DigitsOfGroup(src[i], src[i+1], src[i+2], src[i+3..]);
    TextConcat(g, Digits(src[i+3..]));
    assert Text(g) == [Char(g[0]), Char(g[1]), Char(g[2]), Char(g[3])];
  }

  /** What is left in the end */
  lemma LastText(src: seq<Byte>, i: nat)
    requires i <= |src| <= i + 2 && i % 3 == 0
    ensures i == |src| ==> Text(Digits(src[i..])) == [] && Padding(|src|) == ""
    ensures i < |src| ==>
        var output := Group(src[i], if i + 1 < |src| then src[i+1] else 0, 0);
        Text(Digits(src[i..])) + Padding(|src|)
          == [Char(output[0]), Char(output[1]), if |src| - i == 1 then PAD else Char(output[2]), PAD]
  {
    hide Digits, Char;
    if |src| - i == 1 {
      DigitsOfTwo(src[i], 0);
      assert src[i..] == [src[i]];
    } else if |src| - i == 2 {
      DigitsOfTwo(src[i], src[i+1]);
      assert src[i..] == [src[i], src[i+1]];
    } else {
      assert |Digits(src[i..])| == 0;
    }
  }

  // ---------- decoding

  /** In a byte begun k values ago, the bits to come are still zero. */
  predicate Fits(k: nat, part: Byte) {
    (k == 0 ==> part == 0) && (k == 1 ==> part % 4 == 0) && (k == 2 ==> part % 16 == 0) && (k == 3 ==> part % 64 == 0)
  }

  /** What one more value does to a byte begun: the byte if complete, and the next begun */
  function Step(k: nat, part: Byte, v: Sextet): (r: (seq<Byte>, Byte))
    requires k < 4 && Fits(k, part)
    ensures |r.0| == (if k == 0 then 0 else 1) && Fits((k + 1) % 4, r.1)
  {
    var w: nat := v;
    if k == 0 then ([], w * 4)
    else if k == 1 then ([part + w / 16], w % 16 * 16)
    else if k == 2 then ([part + w / 4], w % 4 * 64)
    else ([part + w], 0)
  }

  /** How many bytes n values complete */
  function Full(n: nat): nat {
    n / 4 * 3 + (if n % 4 == 0 then 0 else n % 4 - 1)
  }

  /** What a run of values stands for: the bytes that are complete, and the byte begun */
  function Fold(d: seq<Sextet>): (r: (seq<Byte>, Byte))
    ensures Fits(|d| % 4, r.1) && |r.0| == Full(|d|)
  {
    if d == [] then ([], 0)
    else
      var before := Fold(d[..|d|-1]);
      var step := Step((|d| - 1) % 4, before.1, d[|d|-1]);
      (before.0 + step.0, step.1)
  }

  lemma FoldStep(d: seq<Sextet>, v: Sextet)
    ensures var step := Step(|d| % 4, Fold(d).1, v);
      Fold(d + [v]).0 == Fold(d).0 + step.0 && Fold(d + [v]).1 == step.1
  {
    hide Step, Fits;
    assert (d + [v])[..|d|] == d;
  }

  lemma {:induction false} FoldConcat(d: seq<Sextet>, e: seq<Sextet>)
    requires |d| % 4 == 0
    ensures Fold(d + e).0 == Fold(d).0 + Fold(e).0 && Fold(d + e).1 == Fold(e).1
  {
    hide Fold, Step, Fits, Full;
    if e == [] {
      assert d + e == d;
      WholeGroups(d);
      WholeGroups(e);
    } else {
      var f, v := e[..|e|-1], e[|e|-1];
      FoldConcat(d, f);
      assert e == f + [v] && d + e == (d + f) + [v];
      FoldStep(d + f, v);
      FoldStep(f, v);
      SameState(|d|, |f|);
      Associate(Fold(d).0, Fold(f).0, Step(|f| % 4, Fold(f).1, v).0);
    }
  }

  lemma SameState(m: nat, n: nat)
    requires m % 4 == 0
    ensures (m + n) % 4 == n % 4
  {
  }

  lemma WholeGroups(d: seq<Sextet>)
    requires |d| % 4 == 0
    ensures Fold(d).1 == 0 && (d == [] ==> Fold(d).0 == [])
  {
  }

  /** The bytes of a group of four values */
  function Bytes3(a: nat, b: nat, c: nat, d: nat): (r: seq<Byte>)
    requires a < 64 && b < 64 && c < 64 && d < 64
    ensures |r| == 3
  {
    [a * 4 + b / 16, b % 16 * 16 + c / 4, c % 4 * 64 + d]
  }

  lemma FoldFirst(a: Sextet)
    ensures Fold([a]).0 == [] && Fold([a]).1 == a * 4
  {
    FoldStep([], a);
    assert [] + [a] == [a];
  }

  lemma FoldTwo(a: Sextet, b: Sextet)
    ensures Fold([a, b]).0 == [Bytes3(a, b, 0, 0)[0]] && Fold([a, b]).1 == b % 16 * 16
  {
    hide Fold;
    FoldFirst(a);
    FoldStep([a], b);
    assert [a] + [b] == [a, b];
  }

  lemma FoldThree(a: Sextet, b: Sextet, c: Sextet)
    ensures Fold([a, b, c]).0 == [Bytes3(a, b, c, 0)[0], Bytes3(a, b, c, 0)[1]] && Fold([a, b, c]).1 == c % 4 * 64
  {
    hide Fold;
    FoldTwo(a, b);
    FoldStep([a, b], c);
    assert [a, b] + [c] == [a, b, c];
  }

  lemma FoldGroup(a: Sextet, b: Sextet, c: Sextet, d: Sextet)
    ensures Fold([a, b, c, d]).0 == Bytes3(a, b, c, d) && Fold([a, b, c, d]).1 == 0
  {
    hide Fold;
    FoldThree(a, b, c);
    FoldStep([a, b, c], d);
    assert [a, b, c] + [d] == [a, b, c, d];
  }

  /** Decoding inverts encoding. */
  lemma {:induction false} FoldDigits(b: seq<Byte>)
    ensures Fold(Digits(b)).0 == b && Fold(Digits(b)).1 == 0
  {
    hide Fold, Step, Fits, Full, Digits;
    if |b| < 3 {
      FoldShortDigits(b);
    } else {
      var g, rest := Group(b[0], b[1], b[2]), b[3..];
      assert b == [b[0], b[1], b[2]] + rest && g == [g[0], g[1], g[2], g[3]];
      FoldDigits(rest);
      DigitsOfGroup(b[0], b[1], b[2], rest);
      FoldConcat(g, Digits(rest));
      FoldGroup(g[0], g[1], g[2], g[3]);
      Bytes3OfGroup(b[0], b[1], b[2]);
    }
  }

  lemma Bytes3OfGroup(x: Byte, y: Byte, z: Byte)
    ensures var g := Group(x, y, z); Bytes3(g[0], g[1], g[2], g[3]) == [x, y, z]
  {
  }

  lemma FoldShortDigits(b: seq<Byte>)
    requires |b| < 3
    ensures Fold(Digits(b)).0 == b && Fold(Digits(b)).1 == 0
  {
    hide Fold, Step, Fits, Full, Digits, Bytes3;
    if |b| == 0 {
      WholeGroups(Digits(b));
      assert Digits(b) == [];
    } else if |b| == 1 {
      FoldOneByte(b[0]);
      assert b == [b[0]];
    } else {
      FoldTwoBytes(b[0], b[1]);
      assert b == [b[0], b[1]];
    }
  }

  lemma FoldOneByte(x: Byte)
    ensures Fold(Digits([x])).0 == [x] && Fold(Digits([x])).1 == 0
  {
    hide Fold, Step, Fits, Full, Digits;
    var d := Group(x, 0, 0);
    DigitsOfTwo(x, 0);
    FoldTwo(d[0], d[1]);
    Bytes3OfGroup(x, 0, 0);
  }

  lemma FoldTwoBytes(x: Byte, y: Byte)
    ensures Fold(Digits([x, y])).0 == [x, y] && Fold(Digits([x, y])).1 == 0
  {
    hide Fold, Step, Fits, Full, Digits;
    var d := Group(x, y, 0);
    DigitsOfTwo(x, y);
    FoldThree(d[0], d[1], d[2]);
    Bytes3OfGroup(x, y, 0);
  }

  /** Only the digits of the bytes leave no bits over. */
  lemma {:induction false} DigitsFold(d: seq<Sextet>)
    requires |d| % 4 != 1 && Fold(d).1 == 0
    ensures Digits(Fold(d).0) == d
  {
    hide Fold, Step, Fits, Full, Digits;
    if |d| < 4 {
      ShortDigits(d);
    } else {
      var g, rest := [d[0], d[1], d[2], d[3]], d[4..];
      assert d == g + rest;
      FoldConcat(g, rest);
      FoldGroup(d[0], d[1], d[2], d[3]);
      DigitsFold(rest);
      GroupOfBytes3(d[0], d[1], d[2], d[3]);
      var b3 := Bytes3(d[0], d[1], d[2], d[3]);
      DigitsOfGroup(b3[0], b3[1], b3[2], Fold(rest).0);
      assert b3 == [b3[0], b3[1], b3[2]];
    }
  }

  lemma ShortDigits(d: seq<Sextet>)
    requires |d| % 4 != 1 && |d| < 4 && Fold(d).1 == 0
    ensures Digits(Fold(d).0) == d
  {
    hide Fold, Step, Fits, Full, Digits, Bytes3;
    if |d| == 2 {
      assert d == [d[0], d[1]];
      FoldTwo(d[0], d[1]);
      DigitsOfBytes2(d[0], d[1]);
    } else if |d| == 3 {
      assert d == [d[0], d[1], d[2]];
      FoldThree(d[0], d[1], d[2]);
      DigitsOfBytes3(d[0], d[1], d[2]);
    } else {
      WholeGroups(d);
      assert d == [] && |Digits([])| == 0;
    }
  }

  lemma DigitsOfBytes2(a: Sextet, b: Sextet)
    requires b % 16 == 0
    ensures Digits([Bytes3(a, b, 0, 0)[0]]) == [a, b]
  {
    hide Digits;
    DigitsOfTwo(Bytes3(a, b, 0, 0)[0], 0);
  }

  lemma DigitsOfBytes3(a: Sextet, b: Sextet, c: Sextet)
    requires c % 4 == 0
    ensures Digits([Bytes3(a, b, c, 0)[0], Bytes3(a, b, c, 0)[1]]) == [a, b, c]
  {
    hide Digits, Bytes3;
    TwoOfBytes3(a, b, c);
    DigitsOfTwo(Bytes3(a, b, c, 0)[0], Bytes3(a, b, c, 0)[1]);
  }

  lemma TwoOfBytes3(a: Sextet, b: Sextet, c: Sextet)
    requires c % 4 == 0
    ensures var x, y := Bytes3(a, b, c, 0)[0], Bytes3(a, b, c, 0)[1];
      x / 4 == a && x % 4 * 16 + y / 16 == b && y % 16 * 4 == c
  {
    var x, y := a * 4 + b / 16, b % 16 * 16 + c / 4;
    assert x / 4 == a && x % 4 == b / 16;
    assert y / 16 == b % 16 && y % 16 == c / 4;
  }

  lemma GroupOfBytes3(a: Sextet, b: Sextet, c: Sextet, d: Sextet)
    ensures var r := Bytes3(a, b, c, d); Group(r[0], r[1], r[2]) == [a, b, c, d]
  {
    var r := Bytes3(a, b, c, d);
    assert r[0] / 4 == a && r[0] % 4 == b / 16;
    assert r[1] / 16 == b % 16 && r[1] % 16 == c / 4;
    assert r[2] / 64 == c % 4 && r[2] % 64 == d;
  }

  // ---------- b64_decode

  /** A text without its blanks */
  function Strip(s: string): (t: string)
    ensures forall i :: 0 <= i < |t| ==> !IsBlank(t[i])
  {
    if s == "" then "" else (if IsBlank(s[0]) then "" else [s[0]]) + Strip(s[1..])
  }

  /** No text of at most n bytes is encoded so. */
  ghost predicate NoneWithin(t: string, n: nat) {
    forall b: seq<Byte> :: Encode(b) == t ==> |b| > n
  }

  lemma EncodeAt(b: seq<Byte>, i: nat)
    requires i < |Encode(b)|
    ensures Encode(b)[i] == if i < |Digits(b)| then Char(Digits(b)[i]) else PAD
  {
    hide Digits, Char;
  }

  /** Before the padding, each character is the next digit. */
  lemma NextDigit(b: seq<Byte>, d: seq<Sextet>, c: char, rest: string)
    requires Encode(b) == Text(d) + ([c] + rest) && c != PAD
    ensures Value(c).Some? && |Digits(b)| > |d| && Digits(b)[..|d| + 1] == d + [Value(c).value]
  {
    hide Digits, Char, Value, Encode;
    EncodeAt(b, |d|);
    ValueOfChar(Digits(b)[|d|]);
    SameDigits(b, d, [c] + rest);
  }

  lemma SameDigits(b: seq<Byte>, d: seq<Sextet>, rest: string)
    requires Encode(b) == Text(d) + rest && |d| <= |Digits(b)|
    ensures d == Digits(b)[..|d|]
  {
    hide Digits, Char, Value, Encode;
    forall i | 0 <= i < |d| ensures d[i] == Digits(b)[i] {
      EncodeAt(b, i);
      ValueOfChar(d[i]);
      ValueOfChar(Digits(b)[i]);
      assert Encode(b)[i] == Text(d)[i];
    }
  }

  lemma TextAt(d: seq<Sextet>, rest: string, i: nat)
    requires i < |d|
    ensures (Text(d) + rest)[i] != PAD
  {
    assert (Text(d) + rest)[i] == Char(d[i]);
  }

  /** With the padding the digits are over. */
  lemma LastDigit(b: seq<Byte>, d: seq<Sextet>, rest: string)
    requires Encode(b) == Text(d) + rest && (rest == "" || rest[0] == PAD)
    ensures Digits(b) == d && rest == Padding(|b|)
  {
    hide Digits, Char, Value, Padding;
    var n := |Digits(b)|;
    if |d| > n {
      EncodeAt(b, n);
      TextAt(d, rest, n);
      assert false;
    }
    if |d| < n {
      EncodeAt(b, |d|);
      assert false;
    }
    SameDigits(b, d, rest);
    assert (Text(d) + rest)[|d|..] == rest;
  }

  /** There is no room for what one more digit stands for. */
  predicate Overflows(d: seq<Sextet>, v: Sextet, n: nat) {
    Full(|d|) >= n || (|d| % 4 in {1, 2} && Full(|d|) + 1 >= n && Step(|d| % 4, Fold(d).1, v).1 != 0)
  }

  lemma NoRoom(b: seq<Byte>, d: seq<Sextet>, v: Sextet, n: nat)
    requires |Digits(b)| > |d| && Digits(b)[..|d| + 1] == d + [v] && Overflows(d, v, n)
    ensures |b| > n
  {
    hide Fold, Digits, Step, Fits;
    if |Digits(b)| == |d| + 1 {
      assert Digits(b) == d + [v];
      FoldStep(d, v);
      FoldDigits(b);
    }
  }

  lemma BadNext(d: seq<Sextet>, c: char, rest: string, n: nat)
    requires c != PAD && (Value(c).None? || Overflows(d, Value(c).value, n))
    ensures NoneWithin(Text(d) + ([c] + rest), n)
  {
    hide Overflows, Digits, Char, Value, Encode, Text;
    forall b: seq<Byte> | Encode(b) == Text(d) + ([c] + rest) ensures |b| > n {
      NextDigit(b, d, c, rest);
      NoRoom(b, d, Value(c).value, n);
    }
  }

  /** The padding is that of the digits, and no bit is left over. */
  predicate GoodEnd(d: seq<Sextet>, rest: string) {
    |d| % 4 != 1 && Fold(d).1 == 0 && rest == if |d| % 4 == 0 then "" else if |d| % 4 == 2 then "==" else "="
  }

  lemma GoodWhenEncoded(b: seq<Byte>, d: seq<Sextet>, rest: string)
    requires (rest == "" || rest[0] == PAD) && Encode(b) == Text(d) + rest
    ensures GoodEnd(d, rest)
  {
    hide Fold, Digits, Encode, Text, Fits;
    LastDigit(b, d, rest);
    FoldDigits(b);
  }

  lemma BadEnd(d: seq<Sextet>, rest: string, n: nat)
    requires (rest == "" || rest[0] == PAD) && !GoodEnd(d, rest)
    ensures NoneWithin(Text(d) + rest, n)
  {
    hide *;
    if b: seq<Byte> :| Encode(b) == Text(d) + rest {
      GoodWhenEncoded(b, d, rest);
      assert false;
    }
    Nothing(Text(d) + rest, n);
  }

  lemma Nothing(t: string, n: nat)
    requires !exists b: seq<Byte> :: Encode(b) == t
    ensures NoneWithin(t, n)
  {
    hide Encode;
  }

  lemma EncodeFold(d: seq<Sextet>, rest: string)
    requires GoodEnd(d, rest)
    ensures Encode(Fold(d).0) == Text(d) + rest
  {
    hide Fold, Digits, Text, Fits;
    DigitsFold(d);
  }

  /** x | y */
  function BitOr(x: nat, y: nat): (r: nat)
    decreases x + y
  {
    if x == 0 then y else if y == 0 then x
    else 2 * BitOr(x / 2, y / 2) + (if x % 2 == 0 && y % 2 == 0 then 0 else 1)
  }

  lemma {:induction false} OrDisjoint(k: nat, y: nat, n: nat)
    requires y < Pow2(n)
    ensures BitOr(k * Pow2(n), y) == k * Pow2(n) + y
  {
    if k != 0 && y != 0 {
      var half := Pow2(n - 1);
      assert k * Pow2(n) == 2 * (k * half);
      OrDisjoint(k, y / 2, n - 1);
    }
  }

  lemma OrIsPlus(part: Byte, x: nat, m: nat)
    requires m in {4, 16, 64} && part % m == 0 && x < m
    ensures BitOr(part, x) == part + x
  {
    hide BitOr;
    assert Pow2(2) == 4 && Pow2(4) == 16 && Pow2(6) == 64;
    OrDisjoint(part / m, x, if m == 4 then 2 else if m == 16 then 4 else 6);
  }

  /** The switch on the state, for one value */
  method Put(target: array<Byte>, state: nat, tarindex: nat, v: Sextet, ghost part: Byte) returns (ok: bool, index: nat)
    requires tarindex <= target.Length && state < 4 && Fits(state, part)
    requires tarindex < target.Length && state != 0 ==> target[tarindex] == part
    modifies target
    ensures ok <==>
        (tarindex < target.Length && (state in {1, 2} ==> tarindex + 1 < target.Length || Step(state, part, v).1 == 0))
    ensures ok ==>
        var step := Step(state, part, v);
        && index == tarindex + |step.0| <= target.Length && target[..index] == old(target[..tarindex]) + step.0
        && (if index < target.Length then state != 3 ==> target[index] == step.1 else step.1 == 0)
  {
    hide BitOr;
    index := tarindex;
    if tarindex >= target.Length {
      return false, index;
    }
    var w: nat := v;
    if state == 0 {
      target[tarindex] := w * 4;
    } else if state == 3 {
      OrIsPlus(part, w, 64);
      target[tarindex] := BitOr(target[tarindex], w);
      index := tarindex + 1;
    } else {
      var high, nextbyte := if state == 1 then w / 16 else w / 4, if state == 1 then w % 16 * 16 else w % 4 * 64;
      OrIsPlus(part, high, if state == 1 then 4 else 16);
      target[tarindex] := BitOr(target[tarindex], high);
      if tarindex + 1 < target.Length {
        target[tarindex + 1] := nextbyte;
      } else if nextbyte != 0 {
        return false, index;
      }
      index := tarindex + 1;
    }
    ok := true;
  }

  /** for (; ch != NUL; ch = *src++) if (!isspace(ch)) break; */
  method SkipBlanks(src: string, i: nat) returns (j: nat)
    requires i <= |src|
    ensures i <= j <= |src| && (j == |src| || !IsBlank(src[j])) && Strip(src[j..]) == Strip(src[i..])
  {
    j := i;
    while j < |src| && IsBlank(src[j])
      invariant i <= j <= |src| && Strip(src[j..]) == Strip(src[i..])
    {
      StripAt(src, j);
      j := j + 1;
    }
  }

  lemma StripAt(src: string, i: nat)
    requires i <= |src|
    ensures i == |src| ==> Strip(src[i..]) == ""
    ensures i < |src| ==> Strip(src[i..]) == (if IsBlank(src[i]) then "" else [src[i]]) + Strip(src[i+1..])
  {
    if i < |src| { assert src[i..][1..] == src[i+1..]; }
  }

  lemma EncodeInjective(b: seq<Byte>, c: seq<Byte>)
    requires Encode(b) == Encode(c)
    ensures b == c
  {
    hide Digits, Text, Padding, Fold, Char;
    var d := Digits(b);
    PaddingIsPads(|b|);
    LastDigit(c, d, Padding(|b|));
    assert Digits(c) == Digits(b);
    FoldDigits(b);
    FoldDigits(c);
    assert b == Fold(d).0 == c;
  }

  lemma PaddingIsPads(n: nat)
    ensures Padding(n) == "" || Padding(n)[0] == PAD
  {
  }

  /** Encodings are C strings without blanks, and a target of B64_DECODE_LEN holds what they stand for. */
  lemma EncodeIsPlain(b: seq<Byte>)
    ensures IsCString(Encode(b)) && Strip(Encode(b)) == Encode(b)
    ensures |b| < |Encode(b)| / 4 * 3 + 1
  {
    hide Digits, Text, Padding, Encode;
    forall i | 0 <= i < |Encode(b)| ensures Encode(b)[i] != NUL && !IsBlank(Encode(b)[i]) {
      EncodeAt(b, i);
    }
    StripPlain(Encode(b));
  }

  lemma StripPlain(s: string)
    requires forall i :: 0 <= i < |s| ==> !IsBlank(s[i])
    ensures Strip(s) == s
  {
  }

  lemma Advance(d: seq<Sextet>, v: Sextet, c: char, rest: string)
    requires Value(c) == Some(v)
    ensures Text(d) + ([c] + rest) == Text(d + [v]) + rest
    ensures var step := Step(|d| % 4, Fold(d).1, v);
      Fold(d + [v]).0 == Fold(d).0 + step.0 && Fold(d + [v]).1 == step.1 && Full(|d| + 1) == Full(|d|) + |step.0|
  {
    hide Fold, Step, Fits, Char, Value;
    FoldStep(d, v);
    TextConcat(d, [v]);
    assert Text([v]) == [c];
    Associate(Text(d), [c], rest);
  }

  /** b64_decode, with a target: it succeeds exactly on the encodings, blanks aside, of what the target can hold. */
  method B64Decode(src: string, target: array<Byte>) returns (result: int)
    requires IsCString(src)
    modifies target
    ensures result == -1 ==> NoneWithin(Strip(src), target.Length)
    ensures result != -1 ==> 0 <= result <= target.Length && Encode(target[..result]) == Strip(src)
    ensures 0 <= result < target.Length ==> target[result] == 0
    ensures forall b: seq<Byte> :: Encode(b) == Strip(src) && |b| <= target.Length ==>
      result == |b| && target[..|b|] == b
  {
    hide Fold, Step, Fits, Full, Digits, Strip, Text, Encode, Value, Char, Padding;
    var i, state, tarindex := 0, 0, 0;
    ghost var d: seq<Sextet> := [];
    assert src[0..] == src && Text(d) == "";
    WholeGroups(d);
    while At(src, i) != NUL && At(src, i) != PAD
      invariant i <= |src| && state == |d| % 4 && tarindex == Full(|d|) <= target.Length
      invariant Text(d) + Strip(src[i..]) == Strip(src)
      invariant target[..tarindex] == Fold(d).0
      invariant if tarindex < target.Length then state != 0 ==> target[tarindex] == Fold(d).1 else Fold(d).1 == 0
      decreases |src| - i
    {
      var ch := src[i];
      StripAt(src, i);
      if !IsBlank(ch) {
        var pos := Value(ch);
        if pos.None? {
          BadNext(d, ch, Strip(src[i+1..]), target.Length);
          return -1;
        }
        var ok;
        ok, tarindex := Put(target, state, tarindex, pos.value, Fold(d).1);
        if !ok {
          BadNext(d, ch, Strip(src[i+1..]), target.Length);
          return -1;
        }
        Advance(d, pos.value, ch, Strip(src[i+1..]));
        d := d + [pos.value];
        state := (state + 1) % 4;
      }
      i := i + 1;
    }
    ghost var rest := Strip(src[i..]);
    StripAt(src, i);
    assert i < |src| ==> src[i] == PAD;
    if At(src, i) == PAD {
      i := i + 1;
      if state <= 1 {
        BadEnd(d, rest, target.Length);
        return -1;
      }
      if state == 2 {
        i := SkipBlanks(src, i);
        StripAt(src, i);
        assert rest == "=" + Strip(src[i..]);
        if At(src, i) != PAD {
          assert i < |src| ==> rest[1] == src[i];
          BadEnd(d, rest, target.Length);
          return -1;
        }
        i := i + 1;
        assert rest == "==" + Strip(src[i..]);
      }
      i := SkipBlanks(src, i);
      StripAt(src, i);
      if At(src, i) != NUL || (tarindex < target.Length && target[tarindex] != 0) {
        BadEnd(d, rest, target.Length);
        return -1;
      }
      assert rest == if state == 2 then "==" else "=";
    } else {
      assert i == |src| && rest == "";
      if state != 0 {
        BadEnd(d, rest, target.Length);
        return -1;
      }
      WholeGroups(d);
    }
    EncodeFold(d, rest);
    if tarindex < target.Length {
      target[tarindex] := 0;
    }
    forall b: seq<Byte> | Encode(b) == Strip(src) ensures b == target[..tarindex] {
      EncodeInjective(b, target[..tarindex]);
    }
    return tarindex;
  }

  // ---------- section 4 of RFC 4648: the same bits, taken six at a time

  function Bits(v: nat, n: nat): (r: seq<bool>)
    ensures |r| == n
  {
    if n == 0 then [] else Bits(v / 2, n - 1) + [v % 2 == 1]
  }

  function ByteBits(b: seq<Byte>): seq<bool> {
    if b == [] then [] else Bits(b[0], 8) + ByteBits(b[1..])
  }

  function DigitBits(d: seq<Sextet>): seq<bool> {
    if d == [] then [] else Bits(d[0], 6) + DigitBits(d[1..])
  }

  /** The bits that the padding stands for */
  function Fill(n: nat): seq<bool> {
    if n % 3 == 0 then [] else if n % 3 == 1 then Bits(0, 4) else Bits(0, 2)
  }

  lemma BitsSplit(hi: nat, lo: nat, m: nat, n: nat, two: nat)
    requires two == Pow2(n) && lo < two
    ensures Bits(hi * two + lo, m + n) == Bits(hi, m) + Bits(lo, n)
  {
    if n == 0 {
      assert Bits(hi, m) + [] == Bits(hi, m);
    } else {
      var half := Pow2(n - 1);
      assert hi * two == 2 * (hi * half);
      assert (hi * two + lo) / 2 == hi * half + lo / 2 && (hi * two + lo) % 2 == lo % 2;
      BitsSplit(hi, lo / 2, m, n - 1, half);
    }
  }

  function Pow2(n: nat): nat {
    if n == 0 then 1 else 2 * Pow2(n - 1)
  }

  lemma GroupBits(x: Byte, y: Byte, z: Byte)
    ensures var g := Group(x, y, z);
      Bits(x, 8) + Bits(y, 8) + Bits(z, 8) == Bits(g[0], 6) + Bits(g[1], 6) + Bits(g[2], 6) + Bits(g[3], 6)
  {
    hide Bits;
    assert Pow2(2) == 4 && Pow2(4) == 16 && Pow2(6) == 64;
    BitsSplit(x / 4, x % 4, 6, 2, 4);
    BitsSplit(x % 4, y / 16, 2, 4, 16);
    BitsSplit(y / 16, y % 16, 4, 4, 16);
    BitsSplit(y % 16, z / 64, 4, 2, 4);
    BitsSplit(z / 64, z % 64, 2, 6, 64);
    Regroup(Bits(x / 4, 6), Bits(x % 4, 2), Bits(y / 16, 4), Bits(y % 16, 4), Bits(z / 64, 2), Bits(z % 64, 6));
  }

  lemma Regroup(a: seq<bool>, b: seq<bool>, c: seq<bool>, d: seq<bool>, e: seq<bool>, f: seq<bool>)
    ensures (a + b) + (c + d) + (e + f) == a + (b + c) + (d + e) + f
  {
  }

  lemma DigitBitsConcat(d: seq<Sextet>, e: seq<Sextet>)
    ensures DigitBits(d + e) == DigitBits(d) + DigitBits(e)
  {
    hide Bits;
    if d == [] {
      assert d + e == e;
    } else {
      assert (d + e)[1..] == d[1..] + e;
      DigitBitsConcat(d[1..], e);
    }
  }

  /** The digits are the bits of the bytes, and zeros to fill the last digit. */
  lemma {:induction false} SameBits(b: seq<Byte>)
    ensures DigitBits(Digits(b)) == ByteBits(b) + Fill(|b|)
  {
    hide Bits, Digits, ByteBits, DigitBits, Fill, Group;
    if |b| < 3 {
      LastBits(b);
    } else {
      var g, rest := Group(b[0], b[1], b[2]), b[3..];
      assert b == [b[0], b[1], b[2]] + rest && g == [g[0], g[1], g[2], g[3]];
      DigitsOfGroup(b[0], b[1], b[2], rest);
      GroupBits(b[0], b[1], b[2]);
      SameBits(rest);
      DigitBitsConcat(g, Digits(rest));
      SameFill(|rest|);
      Associate(Bits(b[0], 8) + Bits(b[1], 8) + Bits(b[2], 8), ByteBits(rest), Fill(|rest|));
      ByteBitsConcat([b[0], b[1], b[2]], rest);
      ThreeBytes(b[0], b[1], b[2]);
      UnfoldDigits(g);
    }
  }

  lemma SameFill(n: nat)
    ensures Fill(n + 3) == Fill(n)
  {
  }

  lemma ByteBitsConcat(d: seq<Byte>, e: seq<Byte>)
    ensures ByteBits(d + e) == ByteBits(d) + ByteBits(e)
  {
    hide Bits;
    if d == [] {
      assert d + e == e;
    } else {
      assert (d + e)[1..] == d[1..] + e;
      ByteBitsConcat(d[1..], e);
    }
  }

  lemma ThreeBytes(x: Byte, y: Byte, z: Byte)
    ensures ByteBits([x, y, z]) == Bits(x, 8) + Bits(y, 8) + Bits(z, 8)
    ensures ByteBits([x, y]) == Bits(x, 8) + Bits(y, 8)
    ensures ByteBits([x]) == Bits(x, 8)
  {
    hide Bits;
    forall b | b in {x, y, z} ensures ByteBits([b]) == Bits(b, 8) {
      assert [b][1..] == [];
    }
    assert [x, y, z][1..] == [y, z] && [x, y][1..] == [y] && [y, z][1..] == [z];
    assert ByteBits([y, z]) == Bits(y, 8) + ByteBits([z]);
  }

  lemma UnfoldDigits(g: seq<Sextet>)
    requires |g| == 4
    ensures DigitBits(g) == Bits(g[0], 6) + Bits(g[1], 6) + Bits(g[2], 6) + Bits(g[3], 6)
  {
    hide Bits;
    ThreeDigits(g[1], g[2], g[3]);
    assert g[1..] == [g[1], g[2], g[3]];
  }

  lemma ThreeDigits(a: Sextet, b: Sextet, c: Sextet)
    ensures DigitBits([a, b, c]) == Bits(a, 6) + Bits(b, 6) + Bits(c, 6)
  {
    hide Bits;
    assert [a, b, c][1..] == [b, c];
    TwoDigits(b, c);
  }

  lemma TwoDigits(a: Sextet, b: Sextet)
    ensures DigitBits([a, b]) == Bits(a, 6) + Bits(b, 6)
  {
    hide Bits;
    assert [a, b][1..] == [b] && [b][1..] == [];
    assert DigitBits([b]) == Bits(b, 6);
  }

  /** The last group, when it is not whole */
  lemma LastBits(b: seq<Byte>)
    requires |b| < 3
    ensures DigitBits(Digits(b)) == ByteBits(b) + Fill(|b|)
  {
    hide Bits, Digits, ByteBits, DigitBits;
    if b == [] {
      NoBits();
    } else if |b| == 1 {
      assert b == [b[0]];
      OneByteBits(b[0]);
    } else {
      assert b == [b[0], b[1]];
      TwoByteBits(b[0], b[1]);
    }
  }

  lemma NoBits()
    ensures DigitBits(Digits([])) == ByteBits([]) + Fill(0)
  {
  }

  lemma OneByteBits(x: Byte)
    ensures DigitBits(Digits([x])) == ByteBits([x]) + Bits(0, 4)
  {
    hide Bits;
    assert Pow2(2) == 4 && Pow2(4) == 16;
    BitsSplit(x / 4, x % 4, 6, 2, 4);
    BitsSplit(x % 4, 0, 2, 4, 16);
    TwoDigits(x / 4, x % 4 * 16);
  }

  lemma TwoByteBits(x: Byte, y: Byte)
    ensures DigitBits(Digits([x, y])) == ByteBits([x, y]) + Bits(0, 2)
  {
    hide Bits;
    assert Pow2(2) == 4 && Pow2(4) == 16;
    BitsSplit(x / 4, x % 4, 6, 2, 4);
    BitsSplit(x % 4, y / 16, 2, 4, 16);
    BitsSplit(y / 16, y % 16, 4, 4, 16);
    BitsSplit(y % 16, 0, 4, 2, 4);
    ThreeBytes(x, y, 0);
    ThreeDigits(x / 4, x % 4 * 16 + y / 16, y % 16 * 4);
  }
}
