/** Message padding shared by SHA-256 and MD5: a 0x80 byte, the least number of zero bytes, and
    the bit length in eight bytes. The two standards differ only in the byte order of the length. */
module Padding {

  datatype Order = BigEndian | LittleEndian

  function Zeros(n: nat): seq<bv8> { seq(n, _ => 0) }

  // The number of zero bytes after the 0x80 byte; LeastPadding says what it is.
  function ZeroCount(len: nat): (z: nat)
    ensures (len + 1 + z + 8) % 64 == 0
  {
    PadArith(len);
    (119 - len % 64) % 64
  }

  lemma PadArith(len: nat)
    ensures (len + 1 + (119 - len % 64) % 64 + 8) % 64 == 0
  {
    var q, r := len / 64, len % 64;
    assert len == 64 * q + r;
    if r < 56 {
      assert len + 1 + (119 - r) % 64 + 8 == 64 * (q + 1);
    } else {
      assert len + 1 + (119 - r) % 64 + 8 == 64 * (q + 2);
    }
  }

  // The k low-order bytes of n, least significant first; this is (n >> 8 * i) & 0xff for i < k.
  function LowBytes(n: nat, k: nat): (s: seq<bv8>)
    ensures |s| == k
  {
    if k == 0 then [] else [Byte(n % 256)] + LowBytes(n / 256, k - 1)
  }

  function Byte(n: nat): bv8
    requires n < 256
  {
    n as bv8
  }

  function Reverse(s: seq<bv8>): seq<bv8> {
    seq(|s|, i requires 0 <= i < |s| => s[|s| - 1 - i])
  }

  function Ordered(s: seq<bv8>, order: Order): (r: seq<bv8>)
    ensures |r| == |s|
  {
    if order.LittleEndian? then s else Reverse(s)
  }

  function LengthField(n: nat): (s: seq<bv8>)
    ensures |s| == 8
  {
    LowBytes(n, 8)
  }

  // What follows a message of len bytes.
  function Suffix(len: nat, order: Order): seq<bv8> {
    [0x80] + Zeros(ZeroCount(len)) + Ordered(LengthField(8 * len), order)
  }

  // Section 5.1.1 of FIPS 180-4, sections 3.1 and 3.2 of RFC 1321, for messages of whole bytes.
  function Pad(m: seq<bv8>, order: Order): (p: seq<bv8>)
    ensures |p| % 64 == 0
  {
    m + Suffix(|m|, order)
  }

  /** Both standards ask for the least k >= 0 with l + 1 + k = 448 (mod 512); ours is k = 8z + 7. */
  lemma LeastPadding(len: nat, k: nat)
    ensures (8 * len + 1 + (8 * ZeroCount(len) + 7)) % 512 == 448
    ensures (8 * len + 1 + k) % 512 == 448 ==> 8 * ZeroCount(len) + 7 <= k
  {
    hide *;
    var z := ZeroCount(len);
    FillsBlocks(len);
    if (8 * len + 1 + k) % 512 == 448 { SmallestResidue(8 * len + 1, 8 * z + 7, k); }
  }

  lemma FillsBlocks(len: nat)
    ensures ZeroCount(len) < 64 && (8 * len + 1 + (8 * ZeroCount(len) + 7)) % 512 == 448
  {
    var z := ZeroCount(len);
    var q := (len + 1 + z + 8) / 64;
    assert len + 1 + z + 8 == 64 * q;
    hide ZeroCount;
    Remainder(8 * len + 1 + (8 * z + 7), q - 1, 448);
  }

  lemma Remainder(n: nat, q: nat, r: nat)
    requires n == 512 * q + r && r < 512
    ensures n % 512 == r
  {
  }

  // Two distances to the same residue differ by a multiple of 512; the one below 512 is the least.
  lemma SmallestResidue(n: nat, a: nat, k: nat)
    requires a < 512 && (n + a) % 512 == (n + k) % 512
    ensures a <= k
  {
    var p, q := (n + a) / 512, (n + k) / 512;
    assert a - k == 512 * (p - q);
  }

  // ---- what the length field says ----------------------------------------------

  // The k low-order digits of n to the base 256, least significant first.
  function Digits(n: nat, k: nat): (s: seq<nat>)
    ensures |s| == k && forall i :: 0 <= i < k ==> s[i] < 256
  {
    if k == 0 then [] else [n % 256] + Digits(n / 256, k - 1)
  }

  function FromLow(s: seq<nat>): nat {
    if s == [] then 0 else s[0] + 256 * FromLow(s[1..])
  }

  function Pow256(k: nat): nat { if k == 0 then 1 else 256 * Pow256(k - 1) }

  lemma {:induction false} Pow256Positive(k: nat)
    ensures Pow256(k) > 0
  {
    if k > 0 { Pow256Positive(k - 1); }
  }

  lemma MulMono(d: nat, x: nat, y: nat)
    requires x < y
    ensures d * x + d <= d * y
  {
    assert d * y == d * x + d * (y - x);
    assert d * (y - x) == d + d * (y - x - 1);
  }

  lemma DivModUnique(n: nat, d: nat, q: nat, r: nat)
    requires r < d && n == d * q + r
    ensures n / d == q && n % d == r
  {
    var q', r' := n / d, n % d;
    assert n == d * q' + r';
    if q < q' { MulMono(d, q, q'); }
    if q' < q { MulMono(d, q', q); }
  }

  lemma ModStep(n: nat, p: nat)
    requires p > 0
    ensures n % (256 * p) == 256 * ((n / 256) % p) + n % 256
  {
    var q, r := (n / 256) / p, (n / 256) % p;
    assert n == (256 * p) * q + (256 * r + n % 256) by {
      assert n / 256 == p * q + r;
      assert 256 * (p * q + r) == (256 * p) * q + 256 * r;
    }
    DivModUnique(n, 256 * p, q, 256 * r + n % 256);
  }

  /** The k length bytes are the digits, to the base 256, of the number modulo 2^(8k). */
  lemma LengthValue(n: nat, k: nat)
    ensures Pow256(k) > 0 && FromLow(Digits(n, k)) == n % Pow256(k)
    ensures forall i :: 0 <= i < k ==> LowBytes(n, k)[i] == Byte(Digits(n, k)[i])
  {
    hide *;
    DigitsRead(n, k);
    DigitBytes(n, k);
  }

  lemma {:induction false} DigitsRead(n: nat, k: nat)
    ensures Pow256(k) > 0 && FromLow(Digits(n, k)) == n % Pow256(k)
  {
    Pow256Positive(k);
    if k > 0 {
      DigitsRead(n / 256, k - 1);
      ModStep(n, Pow256(k - 1));
      var s := Digits(n, k);
      assert s[1..] == Digits(n / 256, k - 1);
    }
  }

  lemma {:induction false} DigitBytes(n: nat, k: nat)
    ensures forall i :: 0 <= i < k ==> LowBytes(n, k)[i] == Byte(Digits(n, k)[i])
  {
    if k > 0 {
      hide Byte;
      DigitBytes(n / 256, k - 1);
      assert LowBytes(n, k)[1..] == LowBytes(n / 256, k - 1) && Digits(n, k)[1..] == Digits(n / 256, k - 1);
      assert forall i :: 0 < i < k ==> LowBytes(n, k)[i] == LowBytes(n, k)[1..][i - 1];
    }
  }

  /** A counter that wraps at 256^k has the same k low bytes as the unbounded number. */
  lemma {:induction false} WrapKeepsBytes(n: nat, k: nat)
    requires Pow256(k) > 0
    ensures LowBytes(n % Pow256(k), k) == LowBytes(n, k)
  {
    hide Byte;
    if k > 0 {
      var p := Pow256(k - 1);
      Pow256Positive(k - 1);
      ModStep(n, p);
      assert (n % (256 * p)) / 256 == (n / 256) % p && (n % (256 * p)) % 256 == n % 256;
      WrapKeepsBytes(n / 256, k - 1);
    }
  }

  // ---- the code: the 64- or 128-byte tail buffer -------------------------------

  /** The code's length counter is a uint64_t; its eight bytes are those of the true bit length. */
  lemma WrappedCounter(len: nat)
    ensures LengthField(8 * len % 0x1_0000_0000_0000_0000) == LengthField(8 * len)
  {
    assert Pow256(8) == 0x1_0000_0000_0000_0000;
    WrapKeepsBytes(8 * len, 8);
  }

  // The last block or two of a message of len bytes: rest is what its full blocks leave over,
  // field the eight bytes of its bit length.
  method BuildTail(rest: seq<bv8>, len: nat, field: seq<bv8>, order: Order)
    returns (tail: array<bv8>, taillen: nat)
    requires |rest| == len % 64 && |field| == 8
    ensures fresh(tail) && taillen <= tail.Length == 128
    ensures taillen == 64 || taillen == 128
    ensures tail[..taillen] == rest + ([0x80] + Zeros(ZeroCount(len)) + Ordered(field, order))
  {
    hide Zeros, ZeroCount, Ordered;
    var r := |rest|;
    tail := new bv8[128](_ => 0);
    forall k | 0 <= k < r { tail[k] := rest[k]; }
    tail[r] := 0x80;
    taillen := if r < 56 then 64 else 128;
    ghost var before := tail[..taillen - 8];
    assert before[..r] == rest && before[r] == 0x80;
    assert forall k :: r < k < |before| ==> before[k] == 0;
    PutLength(tail, taillen, field, order);
    assert tail[..taillen][..|before|] == before;
    BodyKept(rest, before, tail[..taillen]);
    TailShape(rest, len, field, order, tail[..taillen]);
  }

  // What stands before the length field is not touched by writing it.
  lemma BodyKept(rest: seq<bv8>, before: seq<bv8>, tail: seq<bv8>)
    requires |rest| < |before| <= |tail| && tail[..|before|] == before
    requires before[..|rest|] == rest && before[|rest|] == 0x80
    requires forall k :: |rest| < k < |before| ==> before[k] == 0
    ensures rest <= tail && tail[|rest|] == 0x80 && forall k :: |rest| < k < |before| ==> tail[k] == 0
  {
    assert forall k :: 0 <= k < |before| ==> tail[k] == before[k];
    assert tail[..|rest|] == before[..|rest|];
  }

  // The eight bytes of the bit length, at the tail's end.
  method PutLength(tail: array<bv8>, taillen: nat, field: seq<bv8>, order: Order)
    requires 8 <= taillen <= tail.Length && |field| == 8
    modifies tail
    ensures tail[..taillen - 8] == old(tail[..taillen - 8])
    ensures order.BigEndian? ==> forall k :: 0 <= k < 8 ==> tail[taillen - 1 - k] == field[k]
    ensures order.LittleEndian? ==> forall k :: 0 <= k < 8 ==> tail[taillen - 8 + k] == field[k]
  {
    var i := 0;
    while i < 8
      invariant 0 <= i <= 8
      invariant tail[..taillen - 8] == old(tail[..taillen - 8])
      invariant order.BigEndian? ==> forall k :: 0 <= k < i ==> tail[taillen - 1 - k] == field[k]
      invariant order.LittleEndian? ==> forall k :: 0 <= k < i ==> tail[taillen - 8 + k] == field[k]
    {
      if order == BigEndian {
        tail[taillen - 1 - i] := field[i];
      } else {
        tail[taillen - 8 + i] := field[i];
      }
      i := i + 1;
    }
  }

  // A tail with the message's rest, the 0x80 byte, zeros and the length field in their places.
  lemma TailShape(rest: seq<bv8>, len: nat, field: seq<bv8>, order: Order, tail: seq<bv8>)
    requires |rest| == len % 64 && |field| == 8 && |tail| == (if |rest| < 56 then 64 else 128)
    requires rest <= tail && tail[|rest|] == 0x80 && forall k :: |rest| < k < |tail| - 8 ==> tail[k] == 0
    requires order.BigEndian? ==> forall k :: 0 <= k < 8 ==> tail[|tail| - 1 - k] == field[k]
    requires order.LittleEndian? ==> forall k :: 0 <= k < 8 ==> tail[|tail| - 8 + k] == field[k]
    ensures tail == rest + ([0x80] + Zeros(ZeroCount(len)) + Ordered(field, order))
  {
    hide *;
    var r, n, z := |rest|, |tail|, ZeroCount(len);
    TailLength(len, r);
    LengthPart(tail, field, order);
    ZeroPart(tail[r + 1..n - 8], z);
    InParts(tail, r, n - 8);
    assert tail[..r] == rest;
  }

  lemma LengthPart(tail: seq<bv8>, field: seq<bv8>, order: Order)
    requires |field| == 8 <= |tail|
    requires order.BigEndian? ==> forall k :: 0 <= k < 8 ==> tail[|tail| - 1 - k] == field[k]
    requires order.LittleEndian? ==> forall k :: 0 <= k < 8 ==> tail[|tail| - 8 + k] == field[k]
    ensures tail[|tail| - 8..] == Ordered(field, order)
  {
    var n, f := |tail|, Ordered(field, order);
    forall k | 0 <= k < 8 ensures tail[n - 8 + k] == f[k] {
      if order.BigEndian? { assert tail[n - 1 - (7 - k)] == field[7 - k]; }
    }
  }

  lemma ZeroPart(s: seq<bv8>, z: nat)
    requires |s| == z && forall k :: 0 <= k < z ==> s[k] == 0
    ensures s == Zeros(z)
  {
  }

  lemma TailLength(len: nat, r: nat)
    requires r == len % 64
    ensures r + 1 + ZeroCount(len) + 8 == if r < 56 then 64 else 128
  {
  }

  lemma InParts(t: seq<bv8>, i: nat, k: nat)
    requires i < k <= |t|
    ensures t == t[..i] + ([t[i]] + t[i + 1..k] + t[k..])
  {
  }
}
