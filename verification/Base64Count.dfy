/** libubox/base64.c: b64_decode without a target, which only counts. */
module Base64Count {
  import opened Base64
  import opened JsonValue
  import opened Strings

  /** The padding behind so many digits */
  function Pads(n: nat): string {
    if n % 4 == 0 then "" else if n % 4 == 2 then "==" else "="
  }

  /** Digits and padding as in an encoding; bits of the last digit may be left over. */
  predicate Shaped(t: string, d: seq<Sextet>) {
    |d| % 4 != 1 && t == Text(d) + Pads(|d|)
  }

  ghost predicate NeverShaped(t: string) {
    forall d: seq<Sextet> :: !Shaped(t, d)
  }

  /** An encoding is a shaped text whose last digit has no bits left over. */
  lemma EncodedIsShaped(t: string, d: seq<Sextet>)
    ensures Shaped(t, d) && Fold(d).1 == 0 <==> Encode(Fold(d).0) == t && Digits(Fold(d).0) == d
  {
    hide Fold, Digits, Text, Fits;
    if Shaped(t, d) && Fold(d).1 == 0 { DigitsFold(d); }
    if Encode(Fold(d).0) == t && Digits(Fold(d).0) == d { FoldDigits(Fold(d).0); }
  }

  /** So the count for an encoding is that of its bytes. */
  lemma CountOfEncoded(b: seq<Byte>)
    ensures Shaped(Encode(b), Digits(b)) && Full(|Digits(b)|) == |b|
  {
    hide Fold, Digits, Text, Fits, Encode, Shaped, Full;
    FoldDigits(b);
    EncodedIsShaped(Encode(b), Digits(b));
  }

  lemma ShapedAt(t: string, d: seq<Sextet>, i: nat)
    requires Shaped(t, d) && i < |t|
    ensures t[i] == (if i < |d| then Char(d[i]) else PAD) && |d| <= |t|
  {
    hide Char;
  }

  lemma {:induction false} ShapedBegins(t: string, d: seq<Sextet>, e: seq<Sextet>, rest: string)
    requires Shaped(t, e) && t == Text(d) + rest
    ensures |d| <= |e| && e[..|d|] == d
  {
    hide Char, Value, Pads, Shaped;
    if |e| < |d| {
      assert t[|e|] == Char(d[|e|]);
      ShapedAt(t, e, |e|);
      assert false;
    }
    forall i | 0 <= i < |d| ensures e[i] == d[i] {
      assert t[i] == Char(d[i]);
      ShapedAt(t, e, i);
      ValueOfChar(d[i]);
      ValueOfChar(e[i]);
    }
  }

  lemma NotNext(d: seq<Sextet>, c: char, rest: string)
    requires c != PAD && Value(c).None?
    ensures NeverShaped(Text(d) + ([c] + rest))
  {
    hide Char, Value, Pads, Shaped, Text;
    var t := Text(d) + ([c] + rest);
    forall e: seq<Sextet> | Shaped(t, e) ensures false {
      ShapedBegins(t, d, e, [c] + rest);
      assert t[|d|] == c;
      ShapedAt(t, e, |d|);
      ValueOfChar(e[|d|]);
    }
  }

  lemma OnlyEnd(d: seq<Sextet>, rest: string, e: seq<Sextet>)
    requires (rest == "" || rest[0] == PAD) && Shaped(Text(d) + rest, e)
    ensures e == d && rest == Pads(|d|)
  {
    hide Char, Value;
    var t := Text(d) + rest;
    ShapedBegins(t, d, e, rest);
    if |d| < |e| {
      ShapedAt(t, e, |d|);
      assert false;
    }
    assert (Text(d) + rest)[|d|..] == rest && (Text(e) + Pads(|e|))[|e|..] == Pads(|e|);
  }

  lemma NotEnd(d: seq<Sextet>, rest: string)
    requires (rest == "" || rest[0] == PAD) && (|d| % 4 == 1 || rest != Pads(|d|))
    ensures NeverShaped(Text(d) + rest)
  {
    hide Char, Value, Pads, Text;
    forall e: seq<Sextet> | Shaped(Text(d) + rest, e) ensures false {
      OnlyEnd(d, rest, e);
    }
  }

  /** b64_decode, without a target: it counts the bytes that shaped texts stand for, bits left over or not. The NUL in
      the end goes through the null pointer, unless targsize is no more than the count: the result is None. */
  method B64DecodeCount(src: string, targsize: nat) returns (result: Option<int>)
    requires IsCString(src)
    ensures result == Some(-1) <==> NeverShaped(Strip(src))
    ensures forall d: seq<Sextet> :: Shaped(Strip(src), d) ==>
      result == if Full(|d|) < targsize then None else Some(Full(|d|))
  {
    hide Full, Strip, Text, Value, Char, Pads, Shaped;
    var i, state, tarindex := 0, 0, 0;
    ghost var d: seq<Sextet> := [];
    assert src[0..] == src && Text(d) == "";
    NoneFull();
    while At(src, i) != NUL && At(src, i) != PAD
      invariant i <= |src| && state == |d| % 4 && tarindex == Full(|d|)
      invariant Text(d) + Strip(src[i..]) == Strip(src)
      decreases |src| - i
    {
      var ch := src[i];
      StripAt(src, i);
      if !IsBlank(ch) {
        var pos := Value(ch);
        if pos.None? {
          NotNext(d, ch, Strip(src[i+1..]));
          return Some(-1);
        }
        OneMore(d, pos.value, ch, Strip(src[i+1..]));
        d := d + [pos.value];
        tarindex := if state == 0 then tarindex else tarindex + 1;
        state := (state + 1) % 4;
      }
      i := i + 1;
    }
    ghost var rest := Strip(src[i..]);
    StripAt(src, i);
    assert i < |src| ==> src[i] == PAD;
    if At(src, i) == PAD {
      i := i + 1;
      if state <= 1 {
        NotPads(d, rest);
        return Some(-1);
      }
      if state == 2 {
        i := SkipBlanks(src, i);
        StripAt(src, i);
        assert rest == "=" + Strip(src[i..]);
        if At(src, i) != PAD {
          assert i < |src| ==> rest[1] == src[i];
          NotPads(d, rest);
          return Some(-1);
        }
        i := i + 1;
        assert rest == "==" + Strip(src[i..]);
      }
      i := SkipBlanks(src, i);
      StripAt(src, i);
      if At(src, i) != NUL {
        NotPads(d, rest);
        return Some(-1);
      }
    } else {
      if state != 0 {
        NotPads(d, rest);
        return Some(-1);
      }
    }
    IsPads(d, rest);
    forall e: seq<Sextet> | Shaped(Strip(src), e) ensures e == d {
      OnlyEnd(d, rest, e);
    }
    if tarindex < targsize {
      return None;
    }
    return Some(tarindex);
  }

  lemma NoneFull()
    ensures Full(0) == 0
  {
  }

  lemma OneMore(d: seq<Sextet>, v: Sextet, c: char, rest: string)
    requires Value(c) == Some(v)
    ensures Text(d) + ([c] + rest) == Text(d + [v]) + rest
    ensures Full(|d + [v]|) == Full(|d|) + if |d| % 4 == 0 then 0 else 1
  {
    hide Char, Value;
    TextConcat(d, [v]);
    assert Text([v]) == [c];
    Associate(Text(d), [c], rest);
  }

  lemma NotPads(d: seq<Sextet>, rest: string)
    requires rest == "" || rest[0] == PAD
    requires |d| % 4 == 1 || (|d| % 4 == 0 && rest != "") || (|d| % 4 == 2 && rest != "==")
      || (|d| % 4 == 3 && rest != "=")
    ensures NeverShaped(Text(d) + rest)
  {
    NotEnd(d, rest);
  }

  lemma IsPads(d: seq<Sextet>, rest: string)
    requires |d| % 4 != 1 && rest == if |d| % 4 == 0 then "" else if |d| % 4 == 2 then "==" else "="
    ensures Shaped(Text(d) + rest, d)
  {
  }
}
