/** Octets and the big- and little-endian integers read from and written to them. */
module Octets {
  import Sequences

  newtype u8 = x: int | 0 <= x < 256

  type Bytes = seq<u8>

  function U16(n: nat): (s: Bytes)
    requires n < 0x1_0000
    ensures |s| == 2
  {
    [(n / 256) as u8, (n % 256) as u8]
  }

  function Be16(s: Bytes, i: nat): (n: nat)
    requires i + 2 <= |s|
    ensures n < 0x1_0000
  {
    256 * s[i] as nat + s[i + 1] as nat
  }

  function U32(n: nat): (s: Bytes)
    requires n < 0x1_0000_0000
    ensures |s| == 4
  {
    U16(n / 0x1_0000) + U16(n % 0x1_0000)
  }

  function Be32(s: Bytes, i: nat): (n: nat)
    requires i + 4 <= |s|
    ensures n < 0x1_0000_0000
  {
    0x1_0000 * Be16(s, i) + Be16(s, i + 2)
  }

  /** Reading a 16-bit value back wherever it was written. */
  lemma ReadU16(pre: Bytes, n: nat, post: Bytes)
    requires n < 0x1_0000
    ensures Be16(pre + U16(n) + post, |pre|) == n
  {
    var s := pre + U16(n) + post;
    assert s[|pre|] == U16(n)[0] && s[|pre| + 1] == U16(n)[1];
  }

  lemma ReadU32(pre: Bytes, n: nat, post: Bytes)
    requires n < 0x1_0000_0000
    ensures Be32(pre + U32(n) + post, |pre|) == n
  {
    var hi, lo := U16(n / 0x1_0000), U16(n % 0x1_0000);
    ReadU16(pre, n / 0x1_0000, lo + post);
    ReadU16(pre + hi, n % 0x1_0000, post);
    assert pre + U32(n) + post == pre + hi + (lo + post) == (pre + hi) + lo + post;
  }

  function Concat(ss: seq<Bytes>): Bytes {
    if ss == [] then [] else ss[0] + Concat(ss[1..])
  }

  lemma {:induction false} ConcatAppend(ss: seq<Bytes>, ts: seq<Bytes>)
    ensures Concat(ss + ts) == Concat(ss) + Concat(ts)
  {
    if ss == [] {
      assert ss + ts == ts;
    } else {
      ConcatAppend(ss[1..], ts);
      assert (ss + ts)[1..] == ss[1..] + ts && (ss + ts)[0] == ss[0];
      hide Concat;
      Sequences.Associate(ss[0], Concat(ss[1..]), Concat(ts));
    }
  }
}
