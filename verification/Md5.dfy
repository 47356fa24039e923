/** MD5 (RFC 1321). The standard updates four named registers in place, in an order that turns
    with every operation and with message words picked from a table; the code shifts four variables
    along instead and computes the word index. The two are proved to agree for every message. */
module Md5 {
  import opened Padding

  const T: seq<bv32> := [
    0xd76aa478, 0xe8c7b756, 0x242070db, 0xc1bdceee, 0xf57c0faf, 0x4787c62a, 0xa8304613, 0xfd469501,
    0x698098d8, 0x8b44f7af, 0xffff5bb1, 0x895cd7be, 0x6b901122, 0xfd987193, 0xa679438e, 0x49b40821,
    0xf61e2562, 0xc040b340, 0x265e5a51, 0xe9b6c7aa, 0xd62f105d, 0x02441453, 0xd8a1e681, 0xe7d3fbc8,
    0x21e1cde6, 0xc33707d6, 0xf4d50d87, 0x455a14ed, 0xa9e3e905, 0xfcefa3f8, 0x676f02d9, 0x8d2a4c8a,
    0xfffa3942, 0x8771f681, 0x6d9d6122, 0xfde5380c, 0xa4beea44, 0x4bdecfa9, 0xf6bb4b60, 0xbebfbc70,
    0x289b7ec6, 0xeaa127fa, 0xd4ef3085, 0x04881d05, 0xd9d4d039, 0xe6db99e5, 0x1fa27cf8, 0xc4ac5665,
    0xf4292244, 0x432aff97, 0xab9423a7, 0xfc93a039, 0x655b59c3, 0x8f0ccc92, 0xffeff47d, 0x85845dd1,
    0x6fa87e4f, 0xfe2ce6e0, 0xa3014314, 0x4e0811a1, 0xf7537e82, 0xbd3af235, 0x2ad7d2bb, 0xeb86d391]

  // The shift of each operation, as the code tabulates it, one row a round.
  const R1 := [7, 12, 17, 22, 7, 12, 17, 22, 7, 12, 17, 22, 7, 12, 17, 22]
  const R2 := [5, 9, 14, 20, 5, 9, 14, 20, 5, 9, 14, 20, 5, 9, 14, 20]
  const R3 := [4, 11, 16, 23, 4, 11, 16, 23, 4, 11, 16, 23, 4, 11, 16, 23]
  const R4 := [6, 10, 15, 21, 6, 10, 15, 21, 6, 10, 15, 21, 6, 10, 15, 21]
  const R: seq<int> := R1 + R2 + R3 + R4

  // Section 3.3 of RFC 1321.
  const INITIAL: seq<bv32> := [0x67452301, 0xefcdab89, 0x98badcfe, 0x10325476]

  type Block = b: seq<bv8> | |b| == 64 witness seq(64, _ => 0)
  type Chain = h: seq<bv32> | |h| == 4 witness seq(4, _ => 0)

  function Add(x: bv32, y: bv32): bv32 { x + y }

  function Rotl(x: bv32, c: nat): bv32
    requires 0 < c < 32
  {
    (x << c) | (x >> (32 - c))
  }

  // ---- section 3.4 of RFC 1321 --------------------------------------------------

  function F(x: bv32, y: bv32, z: bv32): bv32 { (x & y) | (!x & z) }
  function G(x: bv32, y: bv32, z: bv32): bv32 { (x & z) | (y & !z) }
  function H(x: bv32, y: bv32, z: bv32): bv32 { x ^ y ^ z }
  function I(x: bv32, y: bv32, z: bv32): bv32 { y ^ (x | !z) }

  function Mix(i: nat, x: bv32, y: bv32, z: bv32): bv32 {
    if i < 16 then F(x, y, z) else if i < 32 then G(x, y, z) else if i < 48 then H(x, y, z) else I(x, y, z)
  }

  // The k column of the operation table: which message word operation i reads.
  function WordOf(i: nat): (k: nat)
    requires i < 64
    ensures k < 16
  {
    var j := i % 16;
    if i < 16 then j
    else if i < 32 then [1, 6, 11, 0, 5, 10, 15, 4, 9, 14, 3, 8, 13, 2, 7, 12][j]
    else if i < 48 then [5, 8, 11, 14, 1, 4, 7, 10, 13, 0, 3, 6, 9, 12, 15, 2][j]
    else [0, 7, 14, 5, 12, 3, 10, 1, 8, 15, 6, 13, 4, 11, 2, 9][j]
  }

  // The s column.
  function ShiftOf(i: nat): (s: nat)
    requires i < 64
    ensures 0 < s < 32
  {
    var j := i % 4;
    if i < 16 then [7, 12, 17, 22][j]
    else if i < 32 then [5, 9, 14, 20][j]
    else if i < 48 then [4, 11, 16, 23][j]
    else [6, 10, 15, 21][j]
  }

  // The register operation i assigns: A, D, C, B, A, D, C, B, ... numbered 0, 3, 2, 1.
  function TargetOf(i: nat): (r: nat)
    ensures r < 4
  {
    (4 - i % 4) % 4
  }

  function At(h: Chain, k: nat): bv32 { h[k % 4] }

  // a = b + ((a + mix(b, c, d) + X[k] + T[i]) <<< s)
  function Value(i: nat, a: bv32, b: bv32, c: bv32, d: bv32, x: bv32): bv32
    requires i < 64
  {
    Add(b, Rotl(Add(Add(Add(a, Mix(i, b, c, d)), T[i]), x), ShiftOf(i)))
  }

  function Operation(i: nat, h: Chain, x: seq<bv32>): Chain
    requires i < 64 && |x| == 16
  {
    var r := TargetOf(i);
    h[r := Value(i, h[r], At(h, r + 1), At(h, r + 2), At(h, r + 3), x[WordOf(i)])]
  }

  function Operations(n: nat, h: Chain, x: seq<bv32>): Chain
    requires n <= 64 && |x| == 16
  {
    if n == 0 then h else Operation(n - 1, Operations(n - 1, h, x), x)
  }

  function Word(b0: bv8, b1: bv8, b2: bv8, b3: bv8): bv32 {
    (b0 as bv32) | ((b1 as bv32) << 8) | ((b2 as bv32) << 16) | ((b3 as bv32) << 24)
  }

  function Words(b: Block): (x: seq<bv32>)
    ensures |x| == 16
  {
    seq(16, i requires 0 <= i < 16 => Word(b[4 * i], b[4 * i + 1], b[4 * i + 2], b[4 * i + 3]))
  }

  function AddWords(x: Chain, y: Chain): Chain {
    seq(4, i requires 0 <= i < 4 => Add(x[i], y[i]))
  }

  function Compress(h: Chain, b: Block): Chain {
    AddWords(h, Operations(|T|, h, Words(b)))
  }

  function CompressAll(h: Chain, p: seq<bv8>): Chain
    requires |p| % 64 == 0
    decreases |p|
  {
    if |p| < 64 then h else CompressAll(Compress(h, p[..64]), p[64..])
  }

  function WordBytes(x: bv32): seq<bv8> {
    [(x & 0xff) as bv8, ((x >> 8) & 0xff) as bv8, ((x >> 16) & 0xff) as bv8, ((x >> 24) & 0xff) as bv8]
  }

  function Digest(h: seq<bv32>): seq<bv8> {
    if h == [] then [] else Digest(h[..|h| - 1]) + WordBytes(h[|h| - 1])
  }

  function Hash(m: seq<bv8>): seq<bv8> {
    Digest(CompressAll(INITIAL, Pad(m, LittleEndian)))
  }

  // ---- the code's tables and functions ------------------------------------------

  function CodeWordOf(i: nat): nat {
    if i < 16 then i else if i < 32 then Mod16(5 * i + 1) else if i < 48 then Mod16(3 * i + 5) else Mod16(7 * i)
  }

  function Mod16(x: nat): nat { x % 16 }

  function CodeMix(i: nat, b: bv32, c: bv32, d: bv32): bv32 {
    if i < 16 then (b & c) | (!b & d)
    else if i < 32 then (d & b) | (!d & c)
    else if i < 48 then b ^ c ^ d
    else c ^ (b | !d)
  }

  lemma WordRow2(j: nat)
    requires j < 16
    ensures (5 * j + 1) % 16 == [1, 6, 11, 0, 5, 10, 15, 4, 9, 14, 3, 8, 13, 2, 7, 12][j]
  {
  }

  lemma WordRow3(j: nat)
    requires j < 16
    ensures (3 * j + 5) % 16 == [5, 8, 11, 14, 1, 4, 7, 10, 13, 0, 3, 6, 9, 12, 15, 2][j]
  {
  }

  lemma WordRow4(j: nat)
    requires j < 16
    ensures 7 * j % 16 == [0, 7, 14, 5, 12, 3, 10, 1, 8, 15, 6, 13, 4, 11, 2, 9][j]
  {
  }

  // Only i % 16 matters to the computed indices.
  lemma WordTurn(i: nat)
    ensures Mod16(5 * i + 1) == Mod16(5 * Mod16(i) + 1)
    ensures Mod16(3 * i + 5) == Mod16(3 * Mod16(i) + 5)
    ensures Mod16(7 * i) == Mod16(7 * Mod16(i))
    ensures i < 16 ==> Mod16(i) == i
  {
    var q, j := i / 16, i % 16;
    WholeTurns(5 * q, 5 * j + 1, 5 * i + 1);
    WholeTurns(3 * q, 3 * j + 5, 3 * i + 5);
    WholeTurns(7 * q, 7 * j, 7 * i);
  }

  lemma WholeTurns(q: nat, x: nat, y: nat)
    requires y == 16 * q + x
    ensures y % 16 == x % 16
  {
  }

  lemma CodeByRow(i: nat)
    requires i < 64
    ensures var j := Mod16(i);
            CodeWordOf(i) == if i < 16 then j
                             else if i < 32 then Mod16(5 * j + 1)
                             else if i < 48 then Mod16(3 * j + 5)
                             else Mod16(7 * j)
  {
    WordTurn(i);
    hide Mod16;
  }

  lemma TableByRow(i: nat)
    requires i < 64
    ensures var j := Mod16(i);
            WordOf(i) == if i < 16 then j
                         else if i < 32 then Mod16(5 * j + 1)
                         else if i < 48 then Mod16(3 * j + 5)
                         else Mod16(7 * j)
  {
    var j := i % 16;
    WordRow2(j);
    WordRow3(j);
    WordRow4(j);
  }

  /** The computed word index is the operation table's k column. */
  lemma WordIndex(i: nat)
    requires i < 64
    ensures CodeWordOf(i) == WordOf(i)
  {
    hide *;
    TableByRow(i);
    CodeByRow(i);
  }

  lemma ShiftRows(j: nat)
    requires j < 16
    ensures R1[j] == [7, 12, 17, 22][j % 4] && R2[j] == [5, 9, 14, 20][j % 4]
    ensures R3[j] == [4, 11, 16, 23][j % 4] && R4[j] == [6, 10, 15, 21][j % 4]
  {
    match j
    case 0 => case 1 => case 2 => case 3 => case 4 => case 5 => case 6 => case 7 =>
    case 8 => case 9 => case 10 => case 11 => case 12 => case 13 => case 14 => case _ =>
  }

  lemma RowIndex(a: seq<int>, b: seq<int>, c: seq<int>, d: seq<int>, i: nat)
    requires |a| == |b| == |c| == |d| == 16 && i < 64
    ensures (a + b + c + d)[i] == (if i < 16 then a else if i < 32 then b else if i < 48 then c else d)[i % 16]
  {
  }

  lemma RowLengths()
    ensures |R1| == |R2| == |R3| == |R4| == 16 && R == R1 + R2 + R3 + R4
  {
  }

  lemma ShiftByRow(i: nat)
    requires i < 64
    ensures var j := i % 4;
            ShiftOf(i) == (if i < 16 then [7, 12, 17, 22] else if i < 32 then [5, 9, 14, 20]
                           else if i < 48 then [4, 11, 16, 23] else [6, 10, 15, 21])[j]
  {
  }

  lemma SameQuarter(i: nat)
    ensures (i % 16) % 4 == i % 4
  {
  }

  /** The shift table is the operation table's s column. */
  lemma ShiftTable(i: nat)
    requires i < 64
    ensures |R| == 64 && R[i] == ShiftOf(i)
  {
    hide *;
    ShiftRows(i % 16);
    RowLengths();
    RowIndex(R1, R2, R3, R4, i);
    SameQuarter(i);
    ShiftByRow(i);
  }

  lemma FAgrees(b: bv32, c: bv32, d: bv32)
    ensures (b & c) | (!b & d) == F(b, c, d)
  {
  }

  lemma GAgrees(b: bv32, c: bv32, d: bv32)
    ensures (d & b) | (!d & c) == G(b, c, d)
  {
  }

  lemma HAgrees(b: bv32, c: bv32, d: bv32)
    ensures b ^ c ^ d == H(b, c, d)
  {
  }

  lemma IAgrees(b: bv32, c: bv32, d: bv32)
    ensures c ^ (b | !d) == I(b, c, d)
  {
  }

  lemma MixAgrees(i: nat, b: bv32, c: bv32, d: bv32)
    ensures CodeMix(i, b, c, d) == Mix(i, b, c, d)
  {
    FAgrees(b, c, d);
    GAgrees(b, c, d);
    HAgrees(b, c, d);
    IAgrees(b, c, d);
    hide F, G, H, I;
  }

  // The code's four variables before operation i: the registers, read from the next target on.
  function Turned(i: nat, h: Chain): (bv32, bv32, bv32, bv32) {
    var r := TargetOf(i);
    (h[r], At(h, r + 1), At(h, r + 2), At(h, r + 3))
  }

  lemma TargetNext(i: nat)
    ensures TargetOf(i + 1) == (TargetOf(i) + 3) % 4
  {
  }

  lemma TurnStep(i: nat, h: Chain, x: seq<bv32>)
    requires i < 64 && |x| == 16
    ensures var (a, b, c, d) := Turned(i, h);
            Turned(i + 1, Operation(i, h, x)) == (d, Value(i, a, b, c, d, x[WordOf(i)]), b, c)
  {
    TargetNext(i);
    hide Value, WordOf, TargetOf;
  }

  // ---- the code -----------------------------------------------------------------

  method Rounds(h: Chain, m: seq<bv32>) returns (r: Chain)
    requires |m| == 16
    ensures r == Operations(|T|, h, m)
  {
    hide Mix, CodeMix, WordOf, CodeWordOf, ShiftOf, Rotl, Add, Operation, Turned;
    var a, b, c, d := h[0], h[1], h[2], h[3];
    assert (a, b, c, d) == Turned(0, h) by { TurnZero(h); }
    var i := 0;
    while i < 64
      invariant 0 <= i <= 64
      invariant (a, b, c, d) == Turned(i, Operations(i, h, m))
    {
      WordIndex(i);
      ShiftTable(i);
      MixAgrees(i, b, c, d);
      TurnStep(i, Operations(i, h, m), m);
      var f, g := CodeMix(i, b, c, d), CodeWordOf(i);
      var tmp := d;
      d := c;
      c := b;
      b := Add(b, Rotl(Add(Add(Add(a, f), T[i]), m[g]), R[i]));
      a := tmp;
      i := i + 1;
    }
    r := [a, b, c, d];
    TurnBack(Operations(i, h, m));
  }

  method Md5Block(h: array<bv32>, p: Block)
    requires h.Length == 4
    modifies h
    ensures h[..] == Compress(old(h[..]), p)
  {
    hide Operations, Word, Add;
    var m := new bv32[16];
    var i := 0;
    while i < 16
      invariant 0 <= i <= 16
      invariant forall k :: 0 <= k < i ==> m[k] == Words(p)[k]
      invariant h[..] == old(h[..])
    {
      m[i] := Word(p[i * 4], p[i * 4 + 1], p[i * 4 + 2], p[i * 4 + 3]);
      i := i + 1;
    }
    assert m[..] == Words(p);
    var out := Rounds(h[..], m[..]);
    forall k | 0 <= k < 4 {
      h[k] := Add(h[k], out[k]);
    }
  }

  lemma TurnZero(h: Chain)
    ensures Turned(0, h) == (h[0], h[1], h[2], h[3])
  {
  }

  lemma TurnBack(h: Chain)
    ensures Turned(64, h) == (h[0], h[1], h[2], h[3])
  {
  }

  lemma CompressOne(h: Chain, b: seq<bv8>)
    requires |b| == 64
    ensures CompressAll(h, b) == Compress(h, b)
  {
    assert b[..64] == b && b[64..] == [];
  }

  lemma CompressTwo(h: Chain, t: seq<bv8>)
    requires |t| == 128
    ensures CompressAll(h, t) == Compress(Compress(h, t[..64]), t[64..])
  {
    hide Compress;
    CompressOne(Compress(h, t[..64]), t[64..]);
  }

  // The full blocks of data; i is the number of bytes consumed.
  method FullBlocks(h: array<bv32>, data: seq<bv8>, ghost p: seq<bv8>) returns (i: nat)
    requires h.Length == 4 && |p| % 64 == 0 && data <= p
    modifies h
    ensures i <= |data| < i + 64 && i % 64 == 0
    ensures CompressAll(h[..], p[i..]) == CompressAll(old(h[..]), p)
  {
    hide Compress;
    i := 0;
    assert p[0..] == p;
    while i + 64 <= |data|
      invariant 0 <= i <= |data| && i % 64 == 0
      invariant CompressAll(h[..], p[i..]) == CompressAll(old(h[..]), p)
    {
      assert p[i..][..64] == data[i..i + 64] && p[i..][64..] == p[i + 64..];
      Md5Block(h, data[i..i + 64]);
      i := i + 64;
    }
  }

  method TailBlocks(h: array<bv32>, rest: seq<bv8>, len: nat)
    requires h.Length == 4 && |rest| == len % 64
    modifies h
    ensures (|rest| + |Suffix(len, LittleEndian)|) % 64 == 0
    ensures h[..] == CompressAll(old(h[..]), rest + Suffix(len, LittleEndian))
  {
    hide Compress, CompressAll, LengthField, Zeros, ZeroCount, Ordered;
    var bits: nat := 8 * len % 0x1_0000_0000_0000_0000;
    WrappedCounter(len);
    var tail, taillen := BuildTail(rest, len, LengthField(bits), LittleEndian);
    ghost var t, h0 := tail[..taillen], h[..];
    assert t == rest + Suffix(len, LittleEndian);
    Md5Block(h, tail[..64]);
    if taillen == 128 {
      CompressTwo(h0, t);
      assert tail[..64] == t[..64] && tail[64..128] == t[64..];
      Md5Block(h, tail[64..128]);
    } else {
      CompressOne(h0, t);
    }
  }

  /** pt_md5 computes RFC 1321's MD5 of every message. */
  method PtMd5(data: seq<bv8>) returns (digest: seq<bv8>)
    ensures digest == Hash(data)
  {
    hide CompressAll, WordBytes, Suffix;
    var h := new bv32[4](i requires 0 <= i < 4 => INITIAL[i]);
    assert h[..] == INITIAL;
    ghost var p := Pad(data, LittleEndian);
    var i := FullBlocks(h, data, p);
    assert p[i..] == data[i..] + Suffix(|data|, LittleEndian);
    TailBlocks(h, data[i..], |data|);
    digest := [];
    var k := 0;
    while k < 4
      invariant 0 <= k <= 4
      invariant digest == Digest(h[..k])
    {
      digest := digest + WordBytes(h[k]);
      assert h[..k + 1][..k] == h[..k];
      k := k + 1;
    }
    assert h[..] == h[..4];
  }
}
