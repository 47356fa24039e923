/** SHA-256 (FIPS 180-4) and HMAC-SHA-256 (RFC 2104): the standards as functions, and the
    agent's block loop with its hand-built 64/128-byte tail proved to compute them. */
module Sha256 {
  import opened Padding

  const K: seq<bv32> := [
    0x428a2f98, 0x71374491, 0xb5c0fbcf, 0xe9b5dba5, 0x3956c25b, 0x59f111f1, 0x923f82a4, 0xab1c5ed5,
    0xd807aa98, 0x12835b01, 0x243185be, 0x550c7dc3, 0x72be5d74, 0x80deb1fe, 0x9bdc06a7, 0xc19bf174,
    0xe49b69c1, 0xefbe4786, 0x0fc19dc6, 0x240ca1cc, 0x2de92c6f, 0x4a7484aa, 0x5cb0a9dc, 0x76f988da,
    0x983e5152, 0xa831c66d, 0xb00327c8, 0xbf597fc7, 0xc6e00bf3, 0xd5a79147, 0x06ca6351, 0x14292967,
    0x27b70a85, 0x2e1b2138, 0x4d2c6dfc, 0x53380d13, 0x650a7354, 0x766a0abb, 0x81c2c92e, 0x92722c85,
    0xa2bfe8a1, 0xa81a664b, 0xc24b8b70, 0xc76c51a3, 0xd192e819, 0xd6990624, 0xf40e3585, 0x106aa070,
    0x19a4c116, 0x1e376c08, 0x2748774c, 0x34b0bcb5, 0x391c0cb3, 0x4ed8aa4a, 0x5b9cca4f, 0x682e6ff3,
    0x748f82ee, 0x78a5636f, 0x84c87814, 0x8cc70208, 0x90befffa, 0xa4506ceb, 0xbef9a3f7, 0xc67178f2]

  const H0: seq<bv32> := [0x6a09e667, 0xbb67ae85, 0x3c6ef372, 0xa54ff53a,
                          0x510e527f, 0x9b05688c, 0x1f83d9ab, 0x5be0cd19]

  type Block = b: seq<bv8> | |b| == 64 witness seq(64, _ => 0)
  type Chain = h: seq<bv32> | |h| == 8 witness seq(8, _ => 0)

  // ---- the standard -------------------------------------------------------------

  function Ror(x: bv32, n: bv32): bv32
    requires 0 < n < 32
  {
    (x >> n) | (x << (32 - n))
  }

  // Section 4.1.2 of FIPS 180-4, with the circular shift of section 3.2.
  function BigSigma0(x: bv32): bv32 { Ror(x, 2) ^ Ror(x, 13) ^ Ror(x, 22) }
  function BigSigma1(x: bv32): bv32 { Ror(x, 6) ^ Ror(x, 11) ^ Ror(x, 25) }
  function SmallSigma0(x: bv32): bv32 { Ror(x, 7) ^ Ror(x, 18) ^ (x >> 3) }
  function SmallSigma1(x: bv32): bv32 { Ror(x, 17) ^ Ror(x, 19) ^ (x >> 10) }
  function Ch(x: bv32, y: bv32, z: bv32): bv32 { (x & y) ^ (!x & z) }
  function Maj(x: bv32, y: bv32, z: bv32): bv32 { (x & y) ^ (x & z) ^ (y & z) }

  // Addition modulo 2^32.
  function Add(x: bv32, y: bv32): bv32 { x + y }

  // Big-endian word from four bytes.
  function Word(b0: bv8, b1: bv8, b2: bv8, b3: bv8): bv32 {
    ((b0 as bv32) << 24) | ((b1 as bv32) << 16) | ((b2 as bv32) << 8) | (b3 as bv32)
  }

  function WordAt(b: seq<bv8>, i: nat): bv32
    requires i + 4 <= |b|
  {
    Word(b[i], b[i + 1], b[i + 2], b[i + 3])
  }

  // The message schedule, step 1 of section 6.2.2: word t from the words before it.
  function NextWord(b: Block, w: seq<bv32>): bv32
    requires |w| < 64
  {
    var t := |w|;
    if t < 16 then WordAt(b, 4 * t)
    else Add(Add(Add(w[t - 16], SmallSigma0(w[t - 15])), w[t - 7]), SmallSigma1(w[t - 2]))
  }

  function Extend(b: Block, w: seq<bv32>): (r: seq<bv32>)
    requires |w| <= 64
    ensures |r| == 64
    decreases 64 - |w|
  {
    if |w| == 64 then w else Extend(b, w + [NextWord(b, w)])
  }

  datatype Regs = Regs(a: bv32, b: bv32, c: bv32, d: bv32, e: bv32, f: bv32, g: bv32, h: bv32)

  // One iteration of step 3 of section 6.2.2.
  function Round(r: Regs, k: bv32, w: bv32): Regs {
    var t1 := Add(Add(Add(Add(r.h, BigSigma1(r.e)), Ch(r.e, r.f, r.g)), k), w);
    var t2 := Add(BigSigma0(r.a), Maj(r.a, r.b, r.c));
    Regs(Add(t1, t2), r.a, r.b, r.c, Add(r.d, t1), r.e, r.f, r.g)
  }

  // One iteration for each schedule word in w, in order.
  function Rounds(r: Regs, w: seq<bv32>): Regs
    requires |w| <= |K|
  {
    if |w| == 0 then r
    else var t := |w| - 1; Round(Rounds(r, w[..t]), K[t], w[t])
  }

  function Load(h: Chain): Regs { Regs(h[0], h[1], h[2], h[3], h[4], h[5], h[6], h[7]) }

  function Store(r: Regs): Chain { [r.a, r.b, r.c, r.d, r.e, r.f, r.g, r.h] }

  function AddWords(x: Chain, y: Chain): Chain {
    seq(8, i requires 0 <= i < 8 => Add(x[i], y[i]))
  }

  // Step 4 of section 6.2.2.
  function Compress(h: Chain, b: Block): Chain {
    AddWords(h, Store(Rounds(Load(h), Extend(b, []))))
  }

  function CompressAll(h: Chain, p: seq<bv8>): Chain
    requires |p| % 64 == 0
    decreases |p|
  {
    if |p| == 0 then h else CompressAll(Compress(h, p[..64]), p[64..])
  }

  function WordBytes(x: bv32): seq<bv8> {
    [((x >> 24) & 0xff) as bv8, ((x >> 16) & 0xff) as bv8, ((x >> 8) & 0xff) as bv8, (x & 0xff) as bv8]
  }

  function Digest(h: seq<bv32>): (d: seq<bv8>)
    ensures |d| == 4 * |h|
  {
    if h == [] then [] else Digest(h[..|h| - 1]) + WordBytes(h[|h| - 1])
  }

  function Hash(m: seq<bv8>): (d: seq<bv8>)
    ensures |d| == 32
  {
    Digest(CompressAll(H0, Pad(m, BigEndian)))
  }

  function Xor(x: bv8, y: bv8): bv8 { x ^ y }

  function XorAll(s: seq<bv8>, x: bv8): seq<bv8> {
    seq(|s|, i requires 0 <= i < |s| => Xor(s[i], x))
  }

  // Section 2 of RFC 2104 with B = 64: the key is zero-padded to B bytes, hashed first if longer.
  function KeyBlock(key: seq<bv8>): (k: seq<bv8>)
    ensures |k| == 64
  {
    var k := if |key| > 64 then Hash(key) else key;
    k + Zeros(64 - |k|)
  }

  function Hmac(key: seq<bv8>, text: seq<bv8>): (d: seq<bv8>)
    ensures |d| == 32
  {
    Hash(XorAll(KeyBlock(key), 0x5c) + Hash(XorAll(KeyBlock(key), 0x36) + text))
  }

  /** The shift-and-or of section 3.2 of FIPS 180-4 is a rotation, for every distance SHA-256 uses. */
  lemma RotatesAreRotates(x: bv32)
    ensures Ror(x, 7) == x.RotateRight(7) && Ror(x, 18) == x.RotateRight(18)
    ensures Ror(x, 17) == x.RotateRight(17) && Ror(x, 19) == x.RotateRight(19)
    ensures Ror(x, 2) == x.RotateRight(2) && Ror(x, 13) == x.RotateRight(13) && Ror(x, 22) == x.RotateRight(22)
    ensures Ror(x, 6) == x.RotateRight(6) && Ror(x, 11) == x.RotateRight(11) && Ror(x, 25) == x.RotateRight(25)
  {
  }

  // ---- the code -----------------------------------------------------------------

  lemma ExtendStep(p: Block, w: seq<bv32>, i: nat)
    requires i < 64 && i < |w| && w[i] == NextWord(p, w[..i])
    ensures Extend(p, w[..i + 1]) == Extend(p, w[..i])
  {
    hide NextWord;
    assert w[..i + 1] == w[..i] + [w[i]];
  }

  method Schedule(p: Block) returns (w: array<bv32>)
    ensures fresh(w) && w[..] == Extend(p, [])
  {
    hide Extend, Word, SmallSigma0, SmallSigma1, Add;
    w := new bv32[64];
    assert w[..0] == [];
    var i := 0;
    while i < 16
      invariant 0 <= i <= 16
      invariant Extend(p, w[..i]) == Extend(p, [])
    {
      w[i] := Word(p[i * 4], p[i * 4 + 1], p[i * 4 + 2], p[i * 4 + 3]);
      assert w[i] == NextWord(p, w[..i]);
      ExtendStep(p, w[..], i);
      assert w[..][..i] == w[..i] && w[..][..i + 1] == w[..i + 1];
      i := i + 1;
    }
    while i < 64
      invariant 16 <= i <= 64
      invariant Extend(p, w[..i]) == Extend(p, [])
    {
      var s0 := SmallSigma0(w[i - 15]);
      var s1 := SmallSigma1(w[i - 2]);
      w[i] := Add(Add(Add(w[i - 16], s0), w[i - 7]), s1);
      assert w[i] == NextWord(p, w[..i]);
      ExtendStep(p, w[..], i);
      assert w[..][..i] == w[..i] && w[..][..i + 1] == w[..i + 1];
      i := i + 1;
    }
    assert w[..] == w[..64];
    assert Extend(p, w[..]) == w[..] by { Extended(p, w[..]); }
  }

  lemma Extended(p: Block, w: seq<bv32>)
    requires |w| == 64
    ensures Extend(p, w) == w
  {
    hide NextWord;
  }

  lemma RoundsStep(r: Regs, w: seq<bv32>, i: nat)
    requires i < |w| == |K|
    ensures Rounds(r, w[..i + 1]) == Round(Rounds(r, w[..i]), K[i], w[i])
  {
    hide Round;
    assert w[..i + 1][..i] == w[..i];
  }

  lemma NoRounds(r: Regs)
    ensures Rounds(r, []) == r && |K| == 64
  {
  }

  method RunRounds(r0: Regs, w: array<bv32>) returns (r: Regs)
    requires w.Length == 64
    ensures r == Rounds(r0, w[..])
  {
    hide Rounds, Add, BigSigma0, BigSigma1, Ch, Maj;
    var Regs(a, b, c, d, e, f, g, hh) := r0;
    var i := 0;
    NoRounds(r0);
    assert w[..0] == [];
    while i < 64
      invariant 0 <= i <= 64
      invariant Regs(a, b, c, d, e, f, g, hh) == Rounds(r0, w[..i])
    {
      var t1 := Add(Add(Add(Add(hh, BigSigma1(e)), Ch(e, f, g)), K[i]), w[i]);
      var t2 := Add(BigSigma0(a), Maj(a, b, c));
      RoundsStep(r0, w[..], i);
      assert w[..][..i] == w[..i] && w[..][..i + 1] == w[..i + 1];
      hh, g, f, e := g, f, e, Add(d, t1);
      d, c, b, a := c, b, a, Add(t1, t2);
      i := i + 1;
    }
    assert w[..] == w[..64];
    r := Regs(a, b, c, d, e, f, g, hh);
  }

  method Block256(h: array<bv32>, p: Block)
    requires h.Length == 8
    modifies h
    ensures h[..] == Compress(old(h[..]), p)
  {
    var w := Schedule(p);
    var r := RunRounds(Load(h[..]), w);
    var out := Store(r);
    forall i | 0 <= i < 8 {
      h[i] := Add(h[i], out[i]);
    }
  }

  lemma CompressOne(h: Chain, b: seq<bv8>)
    requires |b| == 64
    ensures CompressAll(h, b) == Compress(h, b)
  {
    assert b[..64] == b && b[64..] == [];
  }

  lemma CompressTwo(h: Chain, t: seq<bv8>)
    requires |t| == 128
    ensures CompressAll(h, t) == Compress(Compress(h, t[..64]), t[64..])
  {
    hide Compress;
    CompressOne(Compress(h, t[..64]), t[64..]);
  }

  // The full blocks of data; i is the number of bytes consumed.
  method FullBlocks(h: array<bv32>, data: seq<bv8>, ghost p: seq<bv8>) returns (i: nat)
    requires h.Length == 8 && |p| % 64 == 0 && data <= p
    modifies h
    ensures i <= |data| < i + 64 && i % 64 == 0
    ensures CompressAll(h[..], p[i..]) == CompressAll(old(h[..]), p)
  {
    hide Compress;
    i := 0;
    assert p[0..] == p;
    while i + 64 <= |data|
      invariant 0 <= i <= |data| && i % 64 == 0
      invariant CompressAll(h[..], p[i..]) == CompressAll(old(h[..]), p)
    {
      assert p[i..][..64] == data[i..i + 64] && p[i..][64..] == p[i + 64..];
      Block256(h, data[i..i + 64]);
      i := i + 64;
    }
  }

  method TailBlocks(h: array<bv32>, rest: seq<bv8>, len: nat)
    requires h.Length == 8 && |rest| == len % 64
    modifies h
    ensures (|rest| + |Suffix(len, BigEndian)|) % 64 == 0
    ensures h[..] == CompressAll(old(h[..]), rest + Suffix(len, BigEndian))
  {
    hide Compress, CompressAll, LengthField, Zeros, ZeroCount, Ordered;
    var bits: nat := 8 * len % 0x1_0000_0000_0000_0000;
    WrappedCounter(len);
    var tail, taillen := BuildTail(rest, len, LengthField(bits), BigEndian);
    ghost var t, h0 := tail[..taillen], h[..];
    assert t == rest + Suffix(len, BigEndian);
    Block256(h, tail[..64]);
    if taillen == 128 {
      CompressTwo(h0, t);
      assert tail[..64] == t[..64] && tail[64..128] == t[64..];
      Block256(h, tail[64..128]);
    } else {
      CompressOne(h0, t);
    }
  }

  /** pt_sha256 computes FIPS 180-4's SHA-256 of every message. */
  method PtSha256(data: seq<bv8>) returns (digest: seq<bv8>)
    ensures digest == Hash(data)
  {
    hide CompressAll, WordBytes, Suffix;
    var h := new bv32[8](i requires 0 <= i < 8 => H0[i]);
    assert h[..] == H0;
    ghost var p := Pad(data, BigEndian);
    var i := FullBlocks(h, data, p);
    assert p[i..] == data[i..] + Suffix(|data|, BigEndian);
    TailBlocks(h, data[i..], |data|);
    digest := [];
    var k := 0;
    while k < 8
      invariant 0 <= k <= 8
      invariant digest == Digest(h[..k])
    {
      digest := digest + WordBytes(h[k]);
      assert h[..k + 1][..k] == h[..k];
      k := k + 1;
    }
    assert h[..] == h[..8];
  }

  // The key block: zeros overwritten by the key, or by its hash when it is longer than 64 bytes.
  method LoadKey(key: seq<bv8>) returns (kblock: array<bv8>)
    ensures fresh(kblock) && kblock[..] == KeyBlock(key)
  {
    hide Hash;
    kblock := new bv8[64](_ => 0);
    var k := key;
    if |key| > 64 {
      k := PtSha256(key);
    }
    forall i | 0 <= i < |k| { kblock[i] := k[i]; }
    assert kblock[..] == k + Zeros(64 - |k|);
  }

  /** pt_hmac_sha256: RFC 2104 on the first 2048 bytes of the message, so on all of it up to 2048. */
  method PtHmacSha256(key: seq<bv8>, msg: seq<bv8>) returns (digest: seq<bv8>)
    ensures digest == Hmac(key, if |msg| > 2048 then msg[..2048] else msg)
  {
    hide Hash, KeyBlock, Xor;
    var kblock := LoadKey(key);
    var ipad, opad := new bv8[64], new bv8[64];
    var i := 0;
    while i < 64
      invariant 0 <= i <= 64
      invariant kblock[..] == KeyBlock(key)
      invariant forall k :: 0 <= k < i ==> ipad[k] == Xor(kblock[k], 0x36)
      invariant forall k :: 0 <= k < i ==> opad[k] == Xor(kblock[k], 0x5c)
    {
      ipad[i], opad[i] := Xor(kblock[i], 0x36), Xor(kblock[i], 0x5c);
      i := i + 1;
    }
    assert ipad[..] == XorAll(kblock[..], 0x36);
    assert opad[..] == XorAll(kblock[..], 0x5c);
    var text := if |msg| > 2048 then msg[..2048] else msg;
    var inner := PtSha256(ipad[..] + text);
    digest := PtSha256(opad[..] + inner);
  }
}
