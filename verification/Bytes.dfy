/** Bytes, and how they are put in memory. */
module Bytes {
  type Byte = b: nat | b < 256

  function Zeros(n: nat): (z: seq<Byte>)
    ensures |z| == n
  {
    seq(n, i => 0)
  }

  /** Some bytes of a memory are replaced. */
  function Write(m: seq<Byte>, off: nat, data: seq<Byte>): (r: seq<Byte>)
    requires off + |data| <= |m|
    ensures |r| == |m|
  {
    m[..off] + data + m[off + |data|..]
  }

  /** Some bytes are at an offset of a memory. */
  predicate At(m: seq<Byte>, off: nat, x: seq<Byte>) {
    off + |x| <= |m| && m[off..off + |x|] == x
  }

  lemma AtParts(m: seq<Byte>, off: nat, x: seq<Byte>, y: seq<Byte>)
    ensures At(m, off, x + y) <==> At(m, off, x) && At(m, off + |x|, y)
  {
    if off + |x + y| <= |m| {
      assert m[off..off + |x + y|] == m[off..off + |x|] + m[off + |x|..off + |x| + |y|];
      assert (x + y)[..|x|] == x && (x + y)[|x|..] == y;
    }
  }

  lemma AtWrite(m: seq<Byte>, off: nat, data: seq<Byte>, i: nat, x: seq<Byte>)
    requires off + |data| <= |m|
    ensures At(Write(m, off, data), off, data)
    ensures At(m, i, x) && (i + |x| <= off || off + |data| <= i) ==> At(Write(m, off, data), i, x)
  {
    var w := Write(m, off, data);
    if At(m, i, x) && (i + |x| <= off || off + |data| <= i) {
      assert w[i..i + |x|] == m[i..i + |x|];
    }
  }

  /** The number that bytes are, the first counting most */
  function Number(b: seq<Byte>): nat {
    if b == [] then 0 else Number(b[..|b|-1]) * 0x100 + b[|b|-1]
  }

  lemma NumberOfTwo(a: Byte, b: Byte)
    ensures Number([a, b]) == a * 0x100 + b
  {
    assert [a, b][..1] == [a] && [a][..0] == [];
    assert Number([a]) == a;
  }

  lemma NumberOfFour(a: Byte, b: Byte, c: Byte, d: Byte)
    ensures Number([a, b, c, d]) == a * 0x100_0000 + b * 0x1_0000 + c * 0x100 + d
  {
    assert [a, b, c, d][..3] == [a, b, c] && [a, b, c][..2] == [a, b];
    NumberOfTwo(a, b);
    assert Number([a, b, c]) == Number([a, b]) * 0x100 + c;
  }

  /** cpu_to_be32 */
  function Be32(v: nat): (r: seq<Byte>)
    requires v < 0x1_0000_0000
    ensures |r| == 4
  {
    [v / 0x100_0000, v / 0x1_0000 % 0x100, v / 0x100 % 0x100, v % 0x100]
  }

  /** be32_to_cpu */
  function Get32(m: seq<Byte>, off: nat): (v: nat)
    requires off + 4 <= |m|
    ensures v < 0x1_0000_0000
  {
    var (a: nat, b: nat, c: nat, d: nat) := (m[off], m[off+1], m[off+2], m[off+3]);
    a * 0x100_0000 + b * 0x1_0000 + c * 0x100 + d
  }

  lemma Get32OfBe32(m: seq<Byte>, off: nat, v: nat)
    requires v < 0x1_0000_0000 && At(m, off, Be32(v))
    ensures off + 4 <= |m| && Get32(m, off) == v
  {
    var x := m[off..off+4];
    assert x[0] == m[off] && x[1] == m[off+1] && x[2] == m[off+2] && x[3] == m[off+3];
    Be32Sum(v);
  }

  lemma Be32Sum(v: nat)
    requires v < 0x1_0000_0000
    ensures var r := Be32(v);
      r[0] as int * 0x100_0000 + r[1] as int * 0x1_0000 + r[2] as int * 0x100 + r[3] as int == v
  {
    assert v / 0x100_0000 == v / 0x1_0000 / 0x100 && v / 0x1_0000 == v / 0x100 / 0x100;
  }

  /** In both directions the first byte counts most. */
  lemma Be32IsNumber(v: nat, m: seq<Byte>, off: nat)
    ensures v < 0x1_0000_0000 ==> Number(Be32(v)) == v
    ensures off + 4 <= |m| ==> Number(m[off..off+4]) == Get32(m, off)
  {
    if v < 0x1_0000_0000 {
      var b := Be32(v);
      Be32Sum(v);
      NumberOfFour(b[0], b[1], b[2], b[3]);
      assert b == [b[0], b[1], b[2], b[3]];
    }
    if off + 4 <= |m| {
      NumberOfFour(m[off], m[off+1], m[off+2], m[off+3]);
      assert m[off..off+4] == [m[off], m[off+1], m[off+2], m[off+3]];
    }
  }

  lemma Be16IsNumber(v: nat, m: seq<Byte>, off: nat)
    ensures v < 0x1_0000 ==> Number(Be16(v)) == v
    ensures off + 2 <= |m| ==> Number(m[off..off+2]) == Get16(m, off)
  {
    if v < 0x1_0000 { NumberOfTwo(v / 0x100, v % 0x100); }
    if off + 2 <= |m| {
      NumberOfTwo(m[off], m[off+1]);
      assert m[off..off+2] == [m[off], m[off+1]];
    }
  }

  function Be16(v: nat): (r: seq<Byte>)
    requires v < 0x1_0000
    ensures |r| == 2
  {
    [v / 0x100, v % 0x100]
  }

  function Get16(m: seq<Byte>, off: nat): (v: nat)
    requires off + 2 <= |m|
    ensures v < 0x1_0000
  {
    var (a: nat, b: nat) := (m[off], m[off+1]);
    a * 0x100 + b
  }

  /** Rounding up to a multiple of four */
  function Pad4(n: nat): (r: nat)
    ensures r % 4 == 0 && n <= r < n + 4
  {
    (n + 3) / 4 * 4
  }
}
