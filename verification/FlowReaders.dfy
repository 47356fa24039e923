/** The NetFlow v9 and IPFIX message readers: the walk over sets, and the agreement of the two. */
module FlowReaders {
  import opened Wrappers
  import opened Octets
  import opened FlowRecords
  import Sequences

  datatype State = State(templates: Cache, out: seq<Flow>)

  const V9_HEADER := 20
  const IPFIX_HEADER := 16

  // A set is well formed at the head of body: its declared length covers its header and fits.
  predicate StartsSet(body: Bytes) { |body| >= SET_HEADER && SET_HEADER <= Be16(body, 2) <= |body| }

  ghost predicate WellFormed(sets: seq<Bytes>) {
    forall i :: 0 <= i < |sets| ==> |sets[i]| >= SET_HEADER && Be16(sets[i], 2) == |sets[i]|
  }

  // The sets visited, in order: everything up to the first that is not well formed.
  function SplitSets(body: Bytes): (sets: seq<Bytes>)
    ensures WellFormed(sets)
  {
    if !StartsSet(body) then []
    else var n := Be16(body, 2); [body[..n]] + SplitSets(body[n..])
  }

  function Apply(st: State, fset: Bytes, key: nat, ipfix: bool): State
    requires |fset| >= SET_HEADER
  {
    var id := Be16(fset, 0);
    if id == (if ipfix then 2 else 0) then st.(templates := LearnTemplate(st.templates, fset, key, ipfix))
    else if id >= 256 then st.(out := st.out + DecodeSet(st.templates, fset, key))
    else st
  }

  function ApplyAll(st: State, sets: seq<Bytes>, key: nat, ipfix: bool): State
    requires WellFormed(sets)
    decreases |sets|
  {
    if sets == [] then st else ApplyAll(Apply(st, sets[0], key, ipfix), sets[1..], key, ipfix)
  }

  function Walk(st: State, body: Bytes, key: nat, ipfix: bool): State {
    ApplyAll(st, SplitSets(body), key, ipfix)
  }

  function V9(st: State, msg: Bytes): State {
    if |msg| < V9_HEADER || Be16(msg, 0) != 9 then st
    else Walk(st, msg[V9_HEADER..], Be32(msg, 16), false)
  }

  // The declared length shortens the message when it is at least a header and less than received.
  function Clamped(msg: Bytes): Bytes
    requires |msg| >= IPFIX_HEADER
  {
    if IPFIX_HEADER <= Be16(msg, 2) < |msg| then msg[..Be16(msg, 2)] else msg
  }

  function Ipfix(st: State, msg: Bytes): State {
    if |msg| < IPFIX_HEADER || Be16(msg, 0) != 10 then st
    else Walk(st, Clamped(msg)[IPFIX_HEADER..], Be32(msg, 12), true)
  }

  ghost function View(c: Collector): State
    reads c
  {
    State(c.templates, c.out)
  }

  // ---- the programs -------------------------------------------------------------------

  lemma WalkStep(st: State, body: Bytes, key: nat, ipfix: bool)
    requires StartsSet(body)
    ensures var n := Be16(body, 2);
            Walk(st, body, key, ipfix) == Walk(Apply(st, body[..n], key, ipfix), body[n..], key, ipfix)
  {
    var n := Be16(body, 2);
    assert SplitSets(body)[0] == body[..n] && SplitSets(body)[1..] == SplitSets(body[n..]);
  }

  lemma WalkStop(st: State, body: Bytes, key: nat, ipfix: bool)
    requires !StartsSet(body)
    ensures Walk(st, body, key, ipfix) == st
  {
  }

  // One set, dispatched on its id.
  method VisitSet(c: Collector, buf: Bytes, setlen: nat, key: nat, ipfix: bool)
    requires SET_HEADER <= setlen <= |buf|
    modifies c
    ensures View(c) == Apply(old(View(c)), buf[..setlen], key, ipfix)
  {
    var id := Be16(buf, 0);
    assert id == Be16(buf[..setlen], 0);
    if id == (if ipfix then 2 else 0) {
      c.TemplateSet(buf, setlen, key, ipfix);
    } else if id == (if ipfix then 3 else 1) {
      // options template: ignored
    } else if id >= 256 {
      c.FlowSet(buf, setlen, key);
    }
  }

  method NetflowRead(c: Collector, msg: Bytes)
    modifies c
    ensures View(c) == V9(old(View(c)), msg)
  {
    hide Apply, Walk;
    if |msg| < V9_HEADER || Be16(msg, 0) != 9 {
      return;
    }
    var srcid := Be32(msg, 16);
    var buf, len := msg[V9_HEADER..], |msg| - V9_HEADER;
    while len > 0
      invariant len == |buf|
      invariant Walk(View(c), buf, srcid, false) == Walk(old(View(c)), msg[V9_HEADER..], srcid, false)
    {
      if len < SET_HEADER {
        break;
      }
      var setlen := Be16(buf, 2);
      if setlen < SET_HEADER || setlen > len {
        break;
      }
      WalkStep(View(c), buf, srcid, false);
      VisitSet(c, buf, setlen, srcid, false);
      buf := buf[setlen..];
      len := len - setlen;
    }
    WalkStop(View(c), buf, srcid, false);
  }

  method IpfixRead(c: Collector, msg: Bytes)
    modifies c
    ensures View(c) == Ipfix(old(View(c)), msg)
  {
    hide Apply, Walk;
    if |msg| < IPFIX_HEADER || Be16(msg, 0) != 10 {
      return;
    }
    var domain := Be32(msg, 12);
    var len := |msg|;
    var msglen := Be16(msg, 2);
    if msglen >= IPFIX_HEADER && msglen < len {
      len := msglen;
    }
    assert msg[..len] == Clamped(msg);
    var buf := msg[..len][IPFIX_HEADER..];
    len := len - IPFIX_HEADER;
    while len > 0
      invariant len == |buf|
      invariant Walk(View(c), buf, domain, true) == Walk(old(View(c)), Clamped(msg)[IPFIX_HEADER..], domain, true)
    {
      if len < SET_HEADER {
        break;
      }
      var setlen := Be16(buf, 2);
      if setlen < SET_HEADER || setlen > len {
        break;
      }
      WalkStep(View(c), buf, domain, true);
      VisitSet(c, buf, setlen, domain, true);
      buf := buf[setlen..];
      len := len - setlen;
    }
    WalkStop(View(c), buf, domain, true);
  }

  // ---- which sets are visited -----------------------------------------------------------

  function Rest(body: Bytes): Bytes
  {
    if !StartsSet(body) then body else Rest(body[Be16(body, 2)..])
  }

  /** The sets visited are a well-formed prefix of the body, and what is left starts no set. */
  lemma {:induction false} SplitCovers(body: Bytes)
    ensures Concat(SplitSets(body)) + Rest(body) == body && !StartsSet(Rest(body))
    decreases |body|
  {
    hide *;
    SplitHead(body);
    if StartsSet(body) {
      var n := SetLength(body);
      SplitCovers(body[n..]);
      Sequences.Associate(body[..n], Concat(SplitSets(body[n..])), Rest(body[n..]));
      assert body == body[..n] + body[n..];
    }
  }

  // The declared length of the set at the head of body.
  function SetLength(body: Bytes): (n: nat)
    requires StartsSet(body)
    ensures 0 < n <= |body|
  {
    Be16(body, 2)
  }

  lemma SplitHead(body: Bytes)
    ensures if StartsSet(body) then var n := SetLength(body);
              Concat(SplitSets(body)) == body[..n] + Concat(SplitSets(body[n..])) && Rest(body) == Rest(body[n..])
            else Concat(SplitSets(body)) + Rest(body) == body && Rest(body) == body
  {
    hide Be16;
    if StartsSet(body) {
      var n := SetLength(body);
      assert SplitSets(body)[0] == body[..n] && SplitSets(body)[1..] == SplitSets(body[n..]);
    }
  }

  lemma HeadRead(s: Bytes, post: Bytes)
    requires |s| >= SET_HEADER
    ensures Be16(s + post, 0) == Be16(s, 0) && Be16(s + post, 2) == Be16(s, 2)
  {
  }

  lemma SplitStep(s: Bytes, more: Bytes)
    requires |s| >= SET_HEADER && Be16(s, 2) == |s|
    ensures SplitSets(s + more) == [s] + SplitSets(more) && Rest(s + more) == Rest(more)
  {
    HeadRead(s, more);
    assert (s + more)[..|s|] == s && (s + more)[|s|..] == more;
    hide Be16;
  }

  /** They are the longest such prefix: any well-formed sets that begin the body begin SplitSets. */
  lemma {:induction false} LongestPrefix(sets: seq<Bytes>, rest: Bytes)
    requires WellFormed(sets)
    ensures SplitSets(Concat(sets) + rest) == sets + SplitSets(rest)
    ensures Rest(Concat(sets) + rest) == Rest(rest)
  {
    if sets == [] {
      assert Concat(sets) + rest == rest;
      assert sets + SplitSets(rest) == SplitSets(rest);
    } else {
      hide SplitSets, Rest, Be16;
      var more := Concat(sets[1..]) + rest;
      LongestPrefix(sets[1..], rest);
      assert Concat(sets) + rest == sets[0] + more;
      SplitStep(sets[0], more);
      Sequences.Associate([sets[0]], sets[1..], SplitSets(rest));
      assert sets == [sets[0]] + sets[1..];
    }
  }

  // ---- the two readers agree --------------------------------------------------------------

  // The IPFIX form of a v9 set: ids 0 and 1 become 2 and 3.
  function MapSet(fset: Bytes): (r: Bytes)
    requires |fset| >= SET_HEADER
    ensures |r| == |fset|
  {
    if Be16(fset, 0) <= 1 then U16(Be16(fset, 0) + 2) + fset[2..] else fset
  }

  function MapSets(sets: seq<Bytes>): (r: seq<Bytes>)
    requires WellFormed(sets)
    ensures |r| == |sets|
  {
    if sets == [] then [] else [MapSet(sets[0])] + MapSets(sets[1..])
  }

  // None of the field specifiers the v9 scan reads has the 0x8000 bit.
  predicate LowTypes(buf: Bytes, off: nat, left: nat)
    requires off <= |buf|
    decreases left
  {
    left > 0 && |buf| - off >= 4 ==> Be16(buf, off) < 0x8000 && LowTypes(buf, off + 4, left - 1)
  }

  predicate Mappable(fset: Bytes)
    requires |fset| >= SET_HEADER
  {
    && Be16(fset, 0) != 2 && Be16(fset, 0) != 3
    && (Be16(fset, 0) == 0 && |fset| >= 8 ==> LowTypes(fset, 8, Be16(fset, 6)))
  }

  ghost predicate AllMappable(sets: seq<Bytes>)
    requires WellFormed(sets)
  {
    forall i :: 0 <= i < |sets| ==> Mappable(sets[i])
  }

  lemma {:induction false} ScanSame(a: Bytes, b: Bytes, off: nat, left: nat, s: Scan)
    requires |a| == |b| && 2 <= off <= |a| && a[2..] == b[2..] && LowTypes(a, off, left)
    ensures ScanFields(a, off, left, s, false) == ScanFields(b, off, left, s, true)
    decreases left
  {
    if left > 0 && |a| - off >= 4 {
      SameTail(a, b, off);
      SameTail(a, b, off + 2);
      var ie, flen := Be16(a, off), Be16(a, off + 2);
      ScanSame(a, b, off + 4, left - 1, s.Take(ie, flen, false));
    }
  }

  lemma SameTail(a: Bytes, b: Bytes, i: nat)
    requires |a| == |b| && 2 <= i && i + 2 <= |a| && a[2..] == b[2..]
    ensures Be16(a, i) == Be16(b, i)
  {
    assert a[i] == a[2..][i - 2] && a[i + 1] == a[2..][i - 1];
  }

  lemma MappedSet(st: State, fset: Bytes, key: nat)
    requires |fset| >= SET_HEADER && Mappable(fset)
    ensures Apply(st, fset, key, false) == Apply(st, MapSet(fset), key, true)
    ensures Be16(MapSet(fset), 2) == Be16(fset, 2)
  {
    var m, id := MapSet(fset), Be16(fset, 0);
    if id <= 1 {
      ReadU16([], id + 2, fset[2..]);
      assert m == [] + U16(id + 2) + fset[2..];
      assert m[2..] == fset[2..];
      SameTail(fset, m, 2);
      if id == 0 && |fset| >= 8 {
        SameTail(fset, m, 4);
        SameTail(fset, m, 6);
        ScanSame(fset, m, 8, Be16(fset, 6), Scan(EMPTY, 0, false));
      }
    }
    hide ScanFields, DecodeSet, U16;
  }

  lemma {:induction false} MappedSets(st: State, sets: seq<Bytes>, key: nat)
    requires WellFormed(sets) && AllMappable(sets)
    ensures WellFormed(MapSets(sets))
    ensures ApplyAll(st, sets, key, false) == ApplyAll(st, MapSets(sets), key, true)
    decreases |sets|
  {
    hide Apply, MapSet, Be16, Mappable;
    if sets != [] {
      MappedSet(st, sets[0], key);
      assert AllMappable(sets[1..]);
      MappedSets(Apply(st, sets[0], key, false), sets[1..], key);
      assert MapSets(sets)[1..] == MapSets(sets[1..]);
    }
  }

  function V9Message(counter: nat, words: Bytes, srcid: nat, body: Bytes): Bytes
    requires counter < 0x1_0000 && |words| == 12 && srcid < 0x1_0000_0000
  {
    U16(9) + U16(counter) + words + U32(srcid) + body
  }

  function IpfixMessage(declared: nat, words: Bytes, domain: nat, body: Bytes): Bytes
    requires declared < 0x1_0000 && |words| == 8 && domain < 0x1_0000_0000
  {
    U16(10) + U16(declared) + words + U32(domain) + body
  }

  lemma V9Parts(st: State, counter: nat, words: Bytes, srcid: nat, body: Bytes)
    requires counter < 0x1_0000 && |words| == 12 && srcid < 0x1_0000_0000
    ensures V9(st, V9Message(counter, words, srcid, body)) == Walk(st, body, srcid, false)
  {
    hide Walk, U16, U32, Be16, Be32;
    var m := V9Message(counter, words, srcid, body);
    ReadU16([], 9, U16(counter) + words + U32(srcid) + body);
    assert m == [] + U16(9) + (U16(counter) + words + U32(srcid) + body);
    ReadU32(U16(9) + U16(counter) + words, srcid, body);
    assert m[V9_HEADER..] == body;
  }

  lemma IpfixParts(st: State, declared: nat, words: Bytes, domain: nat, body: Bytes)
    requires declared < 0x1_0000 && |words| == 8 && domain < 0x1_0000_0000
    requires declared < IPFIX_HEADER || declared >= IPFIX_HEADER + |body|
    ensures Ipfix(st, IpfixMessage(declared, words, domain, body)) == Walk(st, body, domain, true)
  {
    hide Walk, U16, U32, Be16, Be32;
    var m := IpfixMessage(declared, words, domain, body);
    ReadU16([], 10, U16(declared) + words + U32(domain) + body);
    assert m == [] + U16(10) + (U16(declared) + words + U32(domain) + body);
    ReadU16(U16(10), declared, words + U32(domain) + body);
    assert m == U16(10) + U16(declared) + (words + U32(domain) + body);
    ReadU32(U16(10) + U16(declared) + words, domain, body);
    assert m[IPFIX_HEADER..] == body;
  }

  function MapBody(body: Bytes): Bytes {
    Concat(MapSets(SplitSets(body))) + Rest(body)
  }

  /** For any body at all, truncated or trailing bytes included, whose sets have no 0x8000 field type
      and no reserved id 2 or 3, a v9 message and the IPFIX message with the same sets leave equal
      template caches and emit equal records. */
  lemma ReadersAgree(st: State, counter: nat, words9: Bytes, declared: nat, words10: Bytes, id: nat, body: Bytes)
    requires counter < 0x1_0000 && |words9| == 12 && id < 0x1_0000_0000
    requires declared < 0x1_0000 && |words10| == 8
    requires declared < IPFIX_HEADER || declared >= IPFIX_HEADER + |MapBody(body)|
    requires AllMappable(SplitSets(body))
    ensures V9(st, V9Message(counter, words9, id, body))
         == Ipfix(st, IpfixMessage(declared, words10, id, MapBody(body)))
  {
    var sets := SplitSets(body);
    MappedSets(st, sets, id);
    SplitCovers(body);
    LongestPrefix(MapSets(sets), Rest(body));
    assert SplitSets(Rest(body)) == [];
    assert MapSets(sets) + [] == MapSets(sets);
    V9Parts(st, counter, words9, id, body);
    IpfixParts(st, declared, words10, id, MapBody(body));
    hide V9, Ipfix, MapSets, ApplyAll, SplitSets;
  }
}
