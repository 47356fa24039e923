/** Regrouping concatenations. */
module Sequences {
  lemma Associate<T>(a: seq<T>, b: seq<T>, c: seq<T>)
    ensures a + (b + c) == (a + b) + c
  {
  }

  // (a + b) + d is (a + c) + e when b + d is c + e.
  lemma Exchange<T>(a: seq<T>, c: seq<T>, b: seq<T>, d: seq<T>, e: seq<T>)
    requires b + d == c + e
    ensures (a + b) + d == (a + c) + e
  {
    Associate(a, b, d);
    Associate(a, c, e);
  }
}
