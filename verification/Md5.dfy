/** libubox/md5.c: the digest of a message that comes in pieces, against RFC 1321. */
module Md5 {
  import opened Bytes
  import opened Md5Block

  // ---------- RFC 1321

  /** A word is four bytes, the low one first. */
  function WordAt(block: seq<Byte>, n: nat): Word
    requires |block| == 64 && n < 16
  {
    var v: int := block[4*n] as int + block[4*n+1] as int * 0x100 + block[4*n+2] as int * 0x1_0000
        + block[4*n+3] as int * 0x100_0000;
    Word(v as bv32)
  }

  function WordsOf(block: seq<Byte>): (x: seq<Word>)
    requires |block| == 64
    ensures |x| == 16
  {
    seq(16, n requires 0 <= n < 16 => WordAt(block, n))
  }

  /** Section 3.4, for all blocks */
  function Compress(w: Words, data: seq<Byte>): Words
    decreases |data|
  {
    if |data| < 64 then w else Compress(Block(w, WordsOf(data[..64])), data[64..])
  }

  /** The bytes of a number, the low one first */
  function Le32(v: nat): (r: seq<Byte>)
    ensures |r| == 4
  {
    [v % 0x100, v / 0x100 % 0x100, v / 0x1_0000 % 0x100, v / 0x100_0000 % 0x100]
  }

  /** Section 3.1: a one, and zeros until 64 bits are missing in the last block. Section 3.2: the length in bits. */
  function Pad(m: seq<Byte>): (p: seq<Byte>)
    ensures |p| % 64 == 0
  {
    var zeros := (119 - |m| % 64) % 64;
    var bits := 8 * |m|;
    PadAligned(|m|, |m| / 64, |m| % 64);
    m + [0x80] + Zeros(zeros) + Le32(bits % 0x1_0000_0000) + Le32(bits / 0x1_0000_0000 % 0x1_0000_0000)
  }

  lemma PadAligned(n: nat, k: nat, u: nat)
    requires n == 64 * k + u && u < 64
    ensures (n + 1 + (119 - u) % 64 + 8) % 64 == 0
  {
    assert n + 1 + (119 - u) % 64 + 8 == 64 * (if u < 56 then k + 1 else k + 2);
  }

  /** Section 3.3 */
  const INIT := Words(Word(0x67452301), Word(0xefcdab89), Word(0x98badcfe), Word(0x10325476))

  function BytesOfWord(w: Word): (r: seq<Byte>)
    ensures |r| == 4
  {
    Le32(w.v as nat)
  }

  /** Section 3.5 */
  function Output(w: Words): (r: seq<Byte>)
    ensures |r| == 16
  {
    BytesOfWord(w.a) + BytesOfWord(w.b) + BytesOfWord(w.c) + BytesOfWord(w.d)
  }

  function Digest(m: seq<Byte>): (r: seq<Byte>)
    ensures |r| == 16
  {
    Output(Compress(INIT, Pad(m)))
  }

  lemma {:induction false} CompressConcat(w: Words, a: seq<Byte>, b: seq<Byte>)
    requires |a| % 64 == 0
    ensures Compress(w, a + b) == Compress(Compress(w, a), b)
    decreases |a|
  {
    hide Block, WordsOf;
    if |a| < 64 {
      assert a == [] && a + b == b;
    } else {
      assert (a + b)[..64] == a[..64] && (a + b)[64..] == a[64..] + b;
      CompressConcat(Block(w, WordsOf(a[..64])), a[64..], b);
    }
  }

  // ---------- the context

  /** The bytes of a message in whole blocks */
  function Whole(n: nat): (r: nat)
    ensures r <= n && r % 64 == 0 && n - r == n % 64
  {
    n / 64 * 64
  }

  /** What the words stand for, and what is in the buffer */
  ghost predicate Holds(w: Words, buffer: seq<Byte>, m: seq<Byte>)
    requires |buffer| == 64
  {
    w == Compress(INIT, m[..Whole(|m|)]) && buffer[..|m| % 64] == m[Whole(|m|)..]
  }

  /** The message goes on within a block. */
  lemma Shorter(m: seq<Byte>, data: seq<Byte>)
    requires |m| % 64 + |data| < 64
    ensures Whole(|m + data|) == Whole(|m|) && |m + data| % 64 == |m| % 64 + |data|
    ensures (m + data)[..Whole(|m|)] == m[..Whole(|m|)] && (m + data)[Whole(|m|)..] == m[Whole(|m|)..] + data
  {
  }

  /** The message goes on to the end of a block. */
  lemma UpToBlock(m: seq<Byte>, data: seq<Byte>)
    requires (|m| + |data|) % 64 == 0
    ensures Whole(|m + data|) == |m + data| && (m + data)[..|m + data|] == m[..Whole(|m|)] + (m[Whole(|m|)..] + data)
    ensures |m[Whole(|m|)..] + data| % 64 == 0
  {
    assert m == m[..Whole(|m|)] + m[Whole(|m|)..];
  }

  class Context {
    var lo: nat
    var hi: nat
    var w: Words
    const buffer: array<Byte>
    /** The message up to now */
    ghost var m: seq<Byte>

    ghost predicate Valid()
      reads this, buffer
    {
      && buffer.Length == 64 && Holds(w, buffer[..], m)
      && lo == |m| % 0x2000_0000 && hi == |m| / 0x2000_0000 % 0x1_0000_0000
    }

    /** md5_begin */
    constructor ()
      ensures Valid() && m == [] && fresh(buffer)
    {
      buffer := new Byte[64](_ => 0);
      w, lo, hi, m := INIT, 0, 0, [];
      new;
      assert buffer[..0] == [];
    }

    /** body */
    method Body(data: seq<Byte>)
      requires |data| % 64 == 0 && data != []
      modifies this`w
      ensures w == Compress(old(w), data)
    {
      hide Block, WordsOf;
      var ptr := data;
      while ptr != []
        invariant |ptr| % 64 == 0 && Compress(w, ptr) == Compress(old(w), data)
        decreases |ptr|
      {
        w := Rounds(w, WordsOf(ptr[..64]));
        ptr := ptr[64..];
      }
    }

    /** memcpy into the buffer */
    method Store(off: nat, data: seq<Byte>)
      requires buffer.Length == 64 && off + |data| <= 64
      modifies buffer
      ensures buffer[..] == Write(old(buffer[..]), off, data)
    {
      forall i | 0 <= i < |data| {
        buffer[off + i] := data[i];
      }
    }

    /** The counters: lo + 2^29 * hi is the length of the message, modulo 2^61. */
    method Count(size: nat)
      requires lo == |m| % 0x2000_0000 && hi == |m| / 0x2000_0000 % 0x1_0000_0000
      modifies this`lo, this`hi
      ensures lo == (|m| + size) % 0x2000_0000 && hi == (|m| + size) / 0x2000_0000 % 0x1_0000_0000
    {
      var savedLo := lo;
      lo := (savedLo + size) % 0x2000_0000;
      if lo < savedLo {
        hi := (hi + 1) % 0x1_0000_0000;
      }
      hi := (hi + size / 0x2000_0000) % 0x1_0000_0000;
      Carried(|m|, size);
      Wrapped(|m| / 0x2000_0000, size / 0x2000_0000);
    }

    /** What does not end the block goes into the buffer. */
    method Within(used: nat, data: seq<Byte>)
      requires buffer.Length == 64 && Holds(w, buffer[..], m) && used == |m| % 64 && used + |data| < 64
      modifies this`m, buffer
      ensures Holds(w, buffer[..], m) && m == old(m) + data
    {
      hide Compress, Write;
      Shorter(m, data);
      StoreTail(buffer[..], used, data);
      Store(used, data);
      m := m + data;
    }

    /** What ends the block completes the buffer. */
    method Complete(used: nat, data: seq<Byte>)
      requires buffer.Length == 64 && Holds(w, buffer[..], m) && used == |m| % 64 && used + |data| == 64
      modifies this`m, this`w, buffer
      ensures Holds(w, buffer[..], m) && m == old(m) + data
    {
      hide Compress, Write;
      StoreTail(buffer[..], used, data);
      Store(used, data);
      Block64(m, data, buffer[..]);
      Body(buffer[..]);
      m := m + data;
    }

    /** Whole blocks do not go through the buffer. */
    method Blocks(data: seq<Byte>)
      requires buffer.Length == 64 && Holds(w, buffer[..], m) && |m| % 64 == 0 && |data| % 64 == 0 && data != []
      modifies this`m, this`w
      ensures Holds(w, buffer[..], m) && m == old(m) + data
    {
      hide Compress;
      Whole64(m, data);
      Body(data);
      m := m + data;
    }

    /** md5_hash */
    method Hash(data: seq<Byte>)
      requires Valid()
      modifies this, buffer
      ensures Valid() && m == old(m) + data
    {
      hide Holds;
      var used := lo % 64;
      Used(lo, |m|);
      Count(|data|);
      var rest := data;
      if used != 0 {
        var available := 64 - used;
        if |data| < available {
          Within(used, data);
          return;
        }
        Complete(used, rest[..available]);
        Together(old(m), data, available, |m|);
        rest := rest[available..];
      }
      if |rest| >= 64 {
        var n := |rest| / 64 * 64;
        Rounded(|m|, |rest|);
        Together(m, rest, n, |m| + n);
        Blocks(rest[..n]);
        rest := rest[n..];
      }
      Within(0, rest);
    }

    /** The start of md5_end: the padding up to the length */
    method PadBuffer()
      requires buffer.Length == 64 && Holds(w, buffer[..], m) && lo % 64 == |m| % 64
      modifies this`w, buffer
      ensures buffer[..56] == LastBlock(m) && w == Compress(INIT, FirstBlocks(m))
    {
      hide Compress, Write, FirstBlocks, LastBlock, Whole;
      ghost var b := buffer[..];
      var used := lo % 64;
      Store(used, [0x80]);
      used := used + 1;
      var available := 64 - used;
      if available < 8 {
        Store(used, Zeros(available));
        OneMoreBlock(m, b, buffer[..]);
        Body(buffer[..]);
        used := 0;
        available := 64;
      }
      LastOne(m, b, buffer[..], used, available - 8);
      Store(used, Zeros(available - 8));
    }

    /** md5_end */
    method End() returns (result: seq<Byte>)
      requires Valid()
      modifies this, buffer
      ensures result == Digest(old(m))
      ensures w == Words(Word(0), Word(0), Word(0), Word(0)) && lo == hi == 0 && buffer[..] == Zeros(64)
    {
      hide Compress, FirstBlocks, LastBlock, Holds, Le32, Pad;
      Used(lo, |m|);
      PadBuffer();
      lo := lo * 8 % 0x1_0000_0000;
      Store(56, Le32(lo));
      Store(60, Le32(hi));
      LengthAt(lo, hi, |m|);
      Padded(m, buffer[..], Le32(lo), Le32(hi));
      Body(buffer[..]);
      result := Output(w);
      w, lo, hi := Words(Word(0), Word(0), Word(0), Word(0)), 0, 0;
      Store(0, Zeros(64));
      assert buffer[..] == Zeros(64);
    }
  }

  /** The blocks before the last, when the message is padded */
  function FirstBlocks(m: seq<Byte>): seq<Byte> {
    var u := |m| % 64;
    m[..Whole(|m|)] + if u < 56 then [] else m[Whole(|m|)..] + [0x80] + Zeros(63 - u)
  }

  /** The last block, without the length */
  function LastBlock(m: seq<Byte>): seq<Byte> {
    var u := |m| % 64;
    if u < 56 then m[Whole(|m|)..] + [0x80] + Zeros(55 - u) else Zeros(56)
  }

  lemma OneMoreBlock(m: seq<Byte>, b: seq<Byte>, b': seq<Byte>)
    requires |m| % 64 >= 56 && |b| == 64 && b[..|m| % 64] == m[Whole(|m|)..]
    requires b' == Write(Write(b, |m| % 64, [0x80]), |m| % 64 + 1, Zeros(63 - |m| % 64))
    ensures Compress(Compress(INIT, m[..Whole(|m|)]), b') == Compress(INIT, FirstBlocks(m))
  {
    hide Compress;
    assert b' == m[Whole(|m|)..] + [0x80] + Zeros(63 - |m| % 64);
    CompressConcat(INIT, m[..Whole(|m|)], b');
  }

  lemma Regrouped(a: seq<Byte>, b: seq<Byte>, c: seq<Byte>, d: seq<Byte>, e: seq<Byte>, f: seq<Byte>, g: seq<Byte>)
    ensures (a + b) + c + (d + e) + f + g == (a + (b + c + d)) + (e + f + g)
    ensures d == [] ==> (a + b) + c + e + f + g == (a + []) + ((b + c + e) + f + g)
  {
  }

  lemma LastOne(m: seq<Byte>, b: seq<Byte>, b': seq<Byte>, used: nat, n: nat)
    requires |b| == 64 && |b'| == 64 && b[..|m| % 64] == m[Whole(|m|)..]
    requires if |m| % 64 < 56 then used == |m| % 64 + 1 && n == 55 - |m| % 64 && b' == Write(b, |m| % 64, [0x80])
      else used == 0 && n == 56
    ensures Write(b', used, Zeros(n))[..56] == LastBlock(m)
    ensures |m| % 64 < 56 ==> FirstBlocks(m) == m[..Whole(|m|)]
  {
  }

  lemma Sizes(m: seq<Byte>)
    ensures |FirstBlocks(m)| % 64 == 0 && |LastBlock(m)| == 56
  {
  }

  lemma ZeroCount(u: nat)
    requires u < 64
    ensures (119 - u) % 64 == if u < 56 then 55 - u else (63 - u) + 56
  {
  }

  lemma PadIs(m: seq<Byte>)
    ensures var bits := 8 * |m|;
      Pad(m)
        == FirstBlocks(m) + (LastBlock(m) + Le32(bits % 0x1_0000_0000) + Le32(bits / 0x1_0000_0000 % 0x1_0000_0000))
    ensures |FirstBlocks(m)| % 64 == 0 && |LastBlock(m)| == 56
  {
    hide Le32, Whole;
    var u, bits := |m| % 64, 8 * |m|;
    var f, g := Le32(bits % 0x1_0000_0000), Le32(bits / 0x1_0000_0000 % 0x1_0000_0000);
    Sizes(m);
    ZeroCount(u);
    var n := Whole(|m|);
    Split(m, n);
    if u < 56 {
      Regrouped(m[..n], m[n..], [0x80], [], Zeros(55 - u), f, g);
    } else {
      MoreZeros(63 - u, 56);
      Regrouped(m[..n], m[n..], [0x80], Zeros(63 - u), Zeros(56), f, g);
    }
  }

  lemma Split(m: seq<Byte>, n: nat)
    requires n <= |m|
    ensures m[..n] + m[n..] == m
  {
  }

  lemma MoreZeros(a: nat, b: nat)
    ensures Zeros(a + b) == Zeros(a) + Zeros(b)
  {
  }

  lemma LengthAt(lo: nat, hi: nat, n: nat)
    requires lo == n % 0x2000_0000 * 8 % 0x1_0000_0000 && hi == n / 0x2000_0000 % 0x1_0000_0000
    ensures lo == 8 * n % 0x1_0000_0000 && hi == 8 * n / 0x1_0000_0000 % 0x1_0000_0000
  {
  }

  lemma Padded(m: seq<Byte>, b: seq<Byte>, low: seq<Byte>, high: seq<Byte>)
    requires |b| == 64 && b[..56] == LastBlock(m) && b[56..60] == low && b[60..64] == high
    requires low == Le32(8 * |m| % 0x1_0000_0000) && high == Le32(8 * |m| / 0x1_0000_0000 % 0x1_0000_0000)
    ensures Compress(Compress(INIT, FirstBlocks(m)), b) == Compress(INIT, Pad(m))
  {
    hide Compress, FirstBlocks, LastBlock, Pad, Le32;
    PadIs(m);
    assert b == b[..56] + b[56..60] + b[60..64];
    CompressConcat(INIT, FirstBlocks(m), b);
  }

  lemma Rounded(m: nat, n: nat)
    requires m % 64 == 0
    ensures n / 64 * 64 % 64 == 0 && n - n / 64 * 64 < 64 && (m + n / 64 * 64) % 64 == 0
  {
  }

  lemma Together(m: seq<Byte>, data: seq<Byte>, n: nat, size: nat)
    requires n <= |data| && size == |m| + n
    ensures (m + data[..n]) + data[n..] == m + data
    ensures |m| % 64 + n == 64 ==> size % 64 == 0
  {
  }

  lemma Used(lo: nat, n: nat)
    requires lo == n % 0x2000_0000
    ensures lo % 64 == n % 64
  {
  }

  lemma StoreTail(b: seq<Byte>, used: nat, data: seq<Byte>)
    requires |b| == 64 && used + |data| <= 64
    ensures Write(b, used, data)[..used + |data|] == b[..used] + data
  {
  }

  /** The buffer is full: it is the last block of what the message is now. */
  lemma Block64(m: seq<Byte>, data: seq<Byte>, b: seq<Byte>)
    requires |m| % 64 + |data| == 64 && |b| == 64 && b[..64] == m[Whole(|m|)..] + data
    ensures Whole(|m + data|) == |m + data| && |m + data| % 64 == 0
    ensures Compress(INIT, (m + data)[..|m + data|]) == Compress(Compress(INIT, m[..Whole(|m|)]), b)
  {
    hide Compress;
    UpToBlock(m, data);
    assert b[..64] == b;
    CompressConcat(INIT, m[..Whole(|m|)], b);
  }

  lemma Whole64(m: seq<Byte>, data: seq<Byte>)
    requires |m| % 64 == 0 && |data| % 64 == 0
    ensures Whole(|m|) == |m| && Whole(|m + data|) == |m + data| && |m + data| % 64 == 0
    ensures Compress(INIT, m + data) == Compress(Compress(INIT, m), data)
    ensures m[..|m|] == m && (m + data)[..|m + data|] == m + data
  {
    hide Compress;
    CompressConcat(INIT, m, data);
  }

  lemma Wrapped(a: nat, b: nat)
    ensures var q := 0x1_0000_0000; ((a % q + 1) % q + b) % q == (a + 1 + b) % q && (a % q + b) % q == (a + b) % q
  {
    ModOfSum(a, b);
    ModOfSum(a, 1);
    ModOfSum(a + 1, b);
  }

  lemma ModOfSum(a: nat, b: nat)
    ensures var q := 0x1_0000_0000; (a % q + b) % q == (a + b) % q
  {
  }

  lemma Carried(n: nat, size: nat)
    ensures var p := 0x2000_0000;
      && (n % p + size) % p == (n + size) % p
      && (n + size) / p == n / p + size / p + if (n + size) % p < n % p then 1 else 0
  {
  }

  // ---------- messages in pieces

  function Joined(pieces: seq<seq<Byte>>): seq<Byte> {
    if pieces == [] then [] else Joined(pieces[..|pieces|-1]) + pieces[|pieces|-1]
  }

  lemma JoinedOn(pieces: seq<seq<Byte>>)
    ensures Joined(pieces[..0]) == []
    ensures forall i :: 0 <= i < |pieces| ==> Joined(pieces[..i+1]) == Joined(pieces[..i]) + pieces[i]
  {
    forall i | 0 <= i < |pieces| ensures Joined(pieces[..i+1]) == Joined(pieces[..i]) + pieces[i] {
      assert pieces[..i+1][..i] == pieces[..i];
    }
  }

  /** However a message is split, its digest is that of the whole. */
  method DigestOf(pieces: seq<seq<Byte>>) returns (result: seq<Byte>)
    ensures result == Digest(Joined(pieces))
  {
    hide Digest, Holds, Joined;
    JoinedOn(pieces);
    var c := new Context();
    for i := 0 to |pieces|
      invariant c.Valid() && fresh(c) && fresh(c.buffer) && c.m == Joined(pieces[..i])
    {
      c.Hash(pieces[i]);
    }
    assert pieces[..|pieces|] == pieces;
    result := c.End();
  }
}
