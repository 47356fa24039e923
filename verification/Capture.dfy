/** The capture chain: link layer to transport, the IPv6 extension-header walk, and the translation of
    captured flow exports with its re-entry guard. A datagram is short enough for 32-bit offsets. */
module Capture {
  import opened Wrappers
  import opened Octets
  import FlowRecords
  import FlowReaders

  // A packet event: data1 and data2 are the ports, or the ICMP type and code times 256.
  datatype Record =
    | Ball(v6: bool, src: Bytes, dst: Bytes, data1: nat, data2: nat, flag: nat)
    | Exported(flow: FlowRecords.Flow)

  datatype Translate = Off | SFlow | Netflow | Ipfix

  // The upper-layer segment found in a frame.
  datatype Upper = NoUpper | Upper(proto: nat, v6: bool, src: Bytes, dst: Bytes, seg: Bytes)

  // ---- the IPv6 extension-header walk ---------------------------------------------------

  const IP6_HEADER := 40

  predicate Optional(nxt: u8) { nxt == 0 || nxt == 43 || nxt == 60 }
  predicate Extension(nxt: u8) { Optional(nxt) || nxt == 44 }

  // The length the walk gives the extension header at off.
  function ExtLength(p: Bytes, off: nat, nxt: u8): nat
    requires off + 8 <= |p|
  {
    if nxt == 44 then 8 else (p[off + 1] as nat + 1) * 8
  }

  function WalkFrom(p: Bytes, off: nat, nxt: u8): Option<(u8, nat)>
    requires off <= |p|
    decreases |p| - off
  {
    if !Extension(nxt) then Some((nxt, off))
    else if off + 8 > |p| || off + ExtLength(p, off, nxt) >= |p| then None
    else WalkFrom(p, off + ExtLength(p, off, nxt), p[off])
  }

  function Walk(p: Bytes): Option<(u8, nat)> {
    if |p| < IP6_HEADER then None else WalkFrom(p, IP6_HEADER, p[6])
  }

  method UpperLayer(p: Bytes) returns (found: bool, proto: u8, offset: nat)
    ensures found == Walk(p).Some?
    ensures found ==> (proto, offset) == Walk(p).value && IP6_HEADER <= offset <= |p|
  {
    found, proto, offset := false, 0, 0;
    if |p| < IP6_HEADER {
      return;
    }
    var off, nxt := IP6_HEADER, p[6];
    while true
      invariant IP6_HEADER <= off <= |p| && WalkFrom(p, off, nxt) == Walk(p)
      decreases |p| - off
    {
      if nxt == 0 || nxt == 43 || nxt == 60 {
        if off + 8 > |p| { return; }
        var len := (p[off + 1] as nat + 1) * 8;
        nxt := p[off];
        off := off + len;
      } else if nxt == 44 {
        if off + 8 > |p| { return; }
        nxt := p[off];
        off := off + 8;
      } else {
        return true, nxt, off;
      }
      if off >= |p| { return; }
    }
  }

  // Extension headers as section 4 of RFC 8200 lays them out: kind, then all octets but the first,
  // which names the next header.
  datatype Ext = Ext(kind: u8, rest: Bytes)

  predicate ExtValid(e: Ext) {
    && Extension(e.kind)
    && (if e.kind == 44 then |e.rest| == 7 else |e.rest| > 0 && |e.rest| + 1 == (e.rest[0] as nat + 1) * 8)
  }

  function FirstKind(chain: seq<Ext>, upper: u8): u8 { if chain == [] then upper else chain[0].kind }

  function EncodeChain(chain: seq<Ext>, upper: u8): Bytes {
    if chain == [] then [] else [FirstKind(chain[1..], upper)] + chain[0].rest + EncodeChain(chain[1..], upper)
  }

  predicate ChainValid(chain: seq<Ext>) { forall i :: 0 <= i < |chain| ==> ExtValid(chain[i]) }

  lemma {:induction false} WalkFindsChain(pre: Bytes, chain: seq<Ext>, upper: u8, payload: Bytes)
    requires ChainValid(chain) && !Extension(upper) && payload != []
    ensures WalkFrom(pre + EncodeChain(chain, upper) + payload, |pre|, FirstKind(chain, upper))
         == Some((upper, |pre| + |EncodeChain(chain, upper)|))
    decreases |chain|
  {
    hide *;
    if chain == [] {
      ChainEnds(pre, upper, payload);
    } else {
      ChainHead(chain, upper);
      var h, more := [FirstKind(chain[1..], upper)] + chain[0].rest, EncodeChain(chain[1..], upper);
      Regroup(pre, h, more, payload);
      assert |pre + h| == |pre| + |h| && |h| == 1 + |chain[0].rest| && more + payload != [];
      WalkFindsChain(pre + h, chain[1..], upper, payload);
      WalkStep(pre, FirstKind(chain[1..], upper), chain[0], more + payload);
    }
  }

  lemma ChainEnds(pre: Bytes, upper: u8, payload: Bytes)
    requires !Extension(upper)
    ensures EncodeChain([], upper) == []
    ensures WalkFrom(pre + EncodeChain([], upper) + payload, |pre|, FirstKind([], upper)) == Some((upper, |pre|))
  {
  }

  lemma ChainHead(chain: seq<Ext>, upper: u8)
    requires ChainValid(chain) && chain != []
    ensures ExtValid(chain[0]) && ChainValid(chain[1..]) && FirstKind(chain, upper) == chain[0].kind
    ensures EncodeChain(chain, upper)
         == ([FirstKind(chain[1..], upper)] + chain[0].rest) + EncodeChain(chain[1..], upper)
  {
    hide ExtValid;
  }

  lemma Regroup(a: Bytes, b: Bytes, c: Bytes, d: Bytes)
    ensures a + (b + c) + d == a + b + (c + d) == (a + b) + c + d
  {
  }

  lemma WalkOne(p: Bytes, off: nat, nxt: u8)
    requires Extension(nxt) && off + 8 <= |p| && off + ExtLength(p, off, nxt) < |p|
    ensures WalkFrom(p, off, nxt) == WalkFrom(p, off + ExtLength(p, off, nxt), p[off])
  {
  }

  // The walk steps over one whole header that something follows.
  lemma WalkStep(pre: Bytes, next: u8, e: Ext, tail: Bytes)
    requires ExtValid(e) && tail != []
    ensures var p := pre + ([next] + e.rest) + tail;
            WalkFrom(p, |pre|, e.kind) == WalkFrom(p, |pre| + 1 + |e.rest|, next)
  {
    hide WalkFrom;
    var p := pre + ([next] + e.rest) + tail;
    assert p[|pre|] == next && p[|pre| + 1] == e.rest[0];
    assert |e.rest| >= 7;
    assert ExtLength(p, |pre|, e.kind) == 1 + |e.rest|;
    WalkOne(p, |pre|, e.kind);
  }

  // The chain the walk follows.
  function ChainOf(p: Bytes, off: nat, nxt: u8): seq<Ext>
    requires off <= |p|
    decreases |p| - off
  {
    if !Extension(nxt) || off + 8 > |p| || off + ExtLength(p, off, nxt) >= |p| then []
    else
      var n := off + ExtLength(p, off, nxt);
      [Ext(nxt, p[off + 1..n])] + ChainOf(p, n, p[off])
  }

  lemma {:induction false} ChainIsThere(p: Bytes, off: nat, nxt: u8)
    requires off <= |p| && WalkFrom(p, off, nxt).Some?
    ensures var chain, (upper, at) := ChainOf(p, off, nxt), WalkFrom(p, off, nxt).value;
            && ChainValid(chain) && !Extension(upper) && FirstKind(chain, upper) == nxt
            && off <= at <= |p| && p[off..at] == EncodeChain(chain, upper)
            && (if chain == [] then at == off else at < |p|)
    decreases |p| - off
  {
    hide *;
    if Extension(nxt) {
      ChainStep(p, off, nxt);
      var n := off + ExtLength(p, off, nxt);
      ChainIsThere(p, n, p[off]);
      var chain, e := ChainOf(p, n, p[off]), Ext(nxt, p[off + 1..n]);
      var (upper, at) := WalkFrom(p, off, nxt).value;
      ChainCons(e, chain, upper);
      assert p[off..at] == [p[off]] + p[off + 1..n] + p[n..at];
    } else {
      ChainStops(p, off, nxt);
    }
  }

  lemma ChainStep(p: Bytes, off: nat, nxt: u8)
    requires off <= |p| && Extension(nxt) && WalkFrom(p, off, nxt).Some?
    ensures off + 8 <= |p| && off < off + ExtLength(p, off, nxt) < |p|
    ensures var n := off + ExtLength(p, off, nxt);
            && WalkFrom(p, off, nxt) == WalkFrom(p, n, p[off])
            && ChainOf(p, off, nxt) == [Ext(nxt, p[off + 1..n])] + ChainOf(p, n, p[off])
            && ExtValid(Ext(nxt, p[off + 1..n]))
  {
  }

  lemma ChainStops(p: Bytes, off: nat, nxt: u8)
    requires off <= |p| && !Extension(nxt)
    ensures ChainOf(p, off, nxt) == [] && WalkFrom(p, off, nxt) == Some((nxt, off))
    ensures ChainValid([]) && FirstKind([], nxt) == nxt && EncodeChain([], nxt) == [] == p[off..off]
  {
  }

  lemma ChainCons(e: Ext, chain: seq<Ext>, upper: u8)
    ensures EncodeChain([e] + chain, upper) == [FirstKind(chain, upper)] + e.rest + EncodeChain(chain, upper)
    ensures ChainValid(chain) && ExtValid(e) ==> ChainValid([e] + chain)
    ensures FirstKind([e] + chain, upper) == e.kind
  {
    hide ExtValid;
    assert ([e] + chain)[1..] == chain;
  }

  /** The walk reports protocol and offset exactly when the octets before the offset are a chain of
      hop-by-hop, routing, destination-options and fragment headers ending in that protocol, with
      something after the chain. */
  lemma WalkIsChain(p: Bytes, upper: u8, at: nat)
    requires |p| >= IP6_HEADER
    ensures Walk(p) == Some((upper, at))
       <==> (!Extension(upper) && IP6_HEADER <= at <= |p|
             && exists chain: seq<Ext> :: IsChain(p, upper, at, chain))
  {
    if Walk(p) == Some((upper, at)) {
      ChainIsThere(p, IP6_HEADER, p[6]);
      assert IsChain(p, upper, at, ChainOf(p, IP6_HEADER, p[6]));
    }
    if chain: seq<Ext> :| !Extension(upper) && IP6_HEADER <= at <= |p| && IsChain(p, upper, at, chain) {
      ChainWalked(p, upper, at, chain);
    }
  }

  // The octets of p up to at are the encoded chain, announced by the fixed header.
  ghost predicate IsChain(p: Bytes, upper: u8, at: nat, chain: seq<Ext>)
    requires IP6_HEADER <= at <= |p|
  {
    && ChainValid(chain) && FirstKind(chain, upper) == p[6] && p[IP6_HEADER..at] == EncodeChain(chain, upper)
    && (chain != [] ==> at < |p|)
  }

  lemma ChainWalked(p: Bytes, upper: u8, at: nat, chain: seq<Ext>)
    requires IP6_HEADER <= at <= |p| && !Extension(upper) && IsChain(p, upper, at, chain)
    ensures Walk(p) == Some((upper, at))
  {
    if at < |p| {
      hide EncodeChain, ChainValid, FirstKind, Walk;
      assert p == p[..IP6_HEADER] + EncodeChain(chain, upper) + p[at..];
      WalkFindsChain(p[..IP6_HEADER], chain, upper, p[at..]);
      assert p[..IP6_HEADER][6] == p[6];
    } else {
      assert p[IP6_HEADER..at] == [];
    }
  }

  // ---- from frame to records, no translation ----------------------------------------------

  function Parse4(p: Bytes): Upper {
    if |p| < 20 || p[0] / 16 != 4 then NoUpper
    else
      var hdrlen := (p[0] % 16) as nat * 4;
      if hdrlen < 20 || hdrlen > |p| then NoUpper
      else Upper(p[9] as nat, false, p[12..16], p[16..20], p[hdrlen..])
  }

  function Parse6(p: Bytes): Upper {
    match Walk(p)
    case None => NoUpper
    case Some((proto, off)) => if off > |p| || |p| < IP6_HEADER then NoUpper
                               else Upper(proto as nat, true, p[8..24], p[24..40], p[off..])
  }

  function ParseEther(p: Bytes): Upper {
    if |p| < 14 then NoUpper
    else
      var tagged := Be16(p, 12) == 0x8100;
      if tagged && |p| < 18 then NoUpper
      else
        var skip := if tagged then 18 else 14;
        var kind := Be16(p, skip - 2);
        if kind == 0x0800 then Parse4(p[skip..])
        else if kind == 0x86dd then Parse6(p[skip..])
        else NoUpper
  }

  predicate IsUdp(u: Upper) { u.Upper? && u.proto == 17 }

  // The event of a segment that is not translated: at most one.
  function Balls(u: Upper): seq<Record> {
    if u.NoUpper? then []
    else if u.proto == 6 && |u.seg| >= 20 then
      [Ball(u.v6, u.src, u.dst, Be16(u.seg, 0), Be16(u.seg, 2), FlowRecords.TcpFlag(if u.v6 then 5 else 0, u.seg[13]))]
    else if u.proto == 17 && |u.seg| >= 8 then
      [Ball(u.v6, u.src, u.dst, Be16(u.seg, 0), Be16(u.seg, 2), if u.v6 then 8 else 3)]
    else if u.proto == (if u.v6 then 58 else 1) && |u.seg| >= 2 then
      [Ball(u.v6, u.src, u.dst, u.seg[0] as nat * 256, u.seg[1] as nat * 256, if u.v6 then 9 else 4)]
    else []
  }

  // ---- sFlow datagrams ------------------------------------------------------------------------

  function Signed(n: nat): int { if n < 0x8000_0000 then n else n - 0x1_0000_0000 }

  // The offset after up to n extension records from off; None if one is unknown.
  function SkipExtensions(buf: Bytes, off: nat, n: int): Option<nat>
    decreases if n < 0 then 0 else n
  {
    if n <= 0 || off + 4 > |buf| then Some(off)
    else
      var kind := Be32(buf, off);
      if kind == 1 || kind == 2 || kind == 3 then SkipExtensions(buf, off + 20, n - 1)
      else None
  }

  // The sampled frames of an sFlow v4 datagram from offset off on, at most n of them.
  function Samples(buf: Bytes, off: nat, n: int): seq<Bytes>
    decreases if n < 0 then 0 else n
  {
    if n <= 0 || off + 48 > |buf| then []
    else
      var len := Signed(Be32(buf, off + 40));
      var at := off + 48;
      if len < 0 || len > |buf| - at then []
      else
        var next := at + len + (if len % 4 > 0 then 4 - len % 4 else 0);
        [buf[at..at + len]] +
        if next + 4 > |buf| then []
        else
          match SkipExtensions(buf, next + 4, Signed(Be32(buf, next)))
          case None => []
          case Some(o) => Samples(buf, o, n - 1)
  }

  function Sampled(buf: Bytes): seq<Bytes> {
    if |buf| < 24 || Be32(buf, 0) != 4 then [] else Samples(buf, 24, Signed(Be32(buf, 20)))
  }

  function BallsOf(frames: seq<Bytes>): seq<Record> {
    if frames == [] then [] else Balls(ParseEther(frames[0])) + BallsOf(frames[1..])
  }

  // ---- translation ------------------------------------------------------------------------------

  function Wrap(flows: seq<FlowRecords.Flow>): seq<Record> {
    seq(|flows|, i requires 0 <= i < |flows| => Exported(flows[i]))
  }

  // What a captured export datagram becomes: the cache after it and its records.
  function Decode(mode: Translate, cache: FlowRecords.Cache, payload: Bytes): (FlowRecords.Cache, seq<Record>) {
    match mode
    case Off => (cache, [])
    case SFlow => (cache, BallsOf(Sampled(payload)))
    case Netflow => var s := FlowReaders.V9(FlowReaders.State(cache, []), payload); (s.templates, Wrap(s.out))
    case Ipfix => var s := FlowReaders.Ipfix(FlowReaders.State(cache, []), payload); (s.templates, Wrap(s.out))
  }

  predicate Translates(mode: Translate, suspended: bool, u: Upper) {
    mode != Off && !suspended && IsUdp(u) && |u.seg| >= 8
  }

  // What one frame does: only a UDP segment outside any translation is translated.
  function Handle(mode: Translate, suspended: bool, cache: FlowRecords.Cache, u: Upper): (FlowRecords.Cache, seq<Record>) {
    if !Translates(mode, suspended, u) then (cache, Balls(u))
    else if |u.seg| == 8 then (cache, [])
    else Decode(mode, cache, u.seg[8..])
  }

  class Agent {
    const translate: Translate
    var suspend: nat
    const collector: FlowRecords.Collector
    var out: seq<Record>

    constructor (translate: Translate)
      ensures this.translate == translate && suspend == 0 && out == [] && fresh(collector)
      ensures collector.templates == map[]
    {
      this.translate, suspend, out := translate, 0, [];
      collector := new FlowRecords.Collector();
    }

    twostate predicate Handled(u: Upper)
      reads this, collector
    {
      var (cache, records) := Handle(translate, old(suspend) != 0, old(collector.templates), u);
      && suspend == old(suspend)
      && collector.templates == cache
      && out == old(out) + records
    }

    method EtherFrame(p: Bytes)
      modifies this, collector
      ensures Handled(ParseEther(p))
      decreases if suspend == 0 && translate != Off then 1 else 0, 5
    {
      if |p| < 14 {
        return;
      }
      var kind := Be16(p, 12);
      var skip := 14;
      if kind == 0x8100 {
        if |p| < 18 {
          return;
        }
        kind := Be16(p, 16);
        skip := skip + 4;
      }
      if kind == 0x0800 {
        Ip4(p[skip..]);
      } else if kind == 0x86dd {
        Ip6(p[skip..]);
      }
    }

    method Ip4(p: Bytes)
      modifies this, collector
      ensures Handled(Parse4(p))
      decreases if suspend == 0 && translate != Off then 1 else 0, 4
    {
      if |p| < 20 || p[0] / 16 != 4 {
        return;
      }
      var hdrlen := (p[0] % 16) as nat * 4;
      if hdrlen < 20 || hdrlen > |p| {
        return;
      }
      Transport(Upper(p[9] as nat, false, p[12..16], p[16..20], p[hdrlen..]));
    }

    method Ip6(p: Bytes)
      modifies this, collector
      ensures Handled(Parse6(p))
      decreases if suspend == 0 && translate != Off then 1 else 0, 4
    {
      if |p| < IP6_HEADER {
        return;
      }
      var found, proto, off := UpperLayer(p);
      if !found {
        return;
      }
      Transport(Upper(proto as nat, true, p[8..24], p[24..40], p[off..]));
    }

    method Transport(u: Upper)
      requires u.Upper?
      modifies this, collector
      ensures Handled(u)
      decreases if suspend == 0 && translate != Off then 1 else 0, 3
    {
      if u.proto == 17 {
        Udp(u);
      } else {
        out := out + Balls(u);
      }
    }

    method Udp(u: Upper)
      requires IsUdp(u)
      modifies this, collector
      ensures Handled(u)
      decreases if suspend == 0 && translate != Off then 1 else 0, 2
    {
      if |u.seg| < 8 {
        return;
      }
      if translate != Off && suspend == 0 {
        var payload := u.seg[8..];
        if |payload| > 0 {
          suspend := 1;
          FlowDecode(payload);
          suspend := 0;
        }
        return;
      }
      out := out + Balls(u);
    }

    // Runs with translation suspended, so the frames inside an sFlow datagram become plain events.
    method FlowDecode(payload: Bytes)
      requires suspend != 0
      modifies this, collector
      ensures suspend == old(suspend)
      ensures var (cache, records) := Decode(translate, old(collector.templates), payload);
              collector.templates == cache && out == old(out) + records
      decreases 0, 7
    {
      if translate == SFlow {
        SflowRead(payload);
      } else if translate == Netflow {
        collector.out := [];
        FlowReaders.NetflowRead(collector, payload);
        out := out + Wrap(collector.out);
      } else if translate == Ipfix {
        collector.out := [];
        FlowReaders.IpfixRead(collector, payload);
        out := out + Wrap(collector.out);
      }
    }

    // The extension records of one sample; an unknown type cannot be skipped.
    method SflowExtensions(buf: Bytes, start: nat, exnum: int) returns (known: bool, off: nat)
      ensures known == SkipExtensions(buf, start, exnum).Some?
      ensures known ==> off == SkipExtensions(buf, start, exnum).value
    {
      known, off := true, start;
      var j := 0;
      while j < exnum
        invariant 0 <= j && SkipExtensions(buf, off, exnum - j) == SkipExtensions(buf, start, exnum)
        decreases exnum - j
      {
        if off + 4 > |buf| {
          break;
        }
        var kind := Be32(buf, off);
        if kind == 1 {
          off := off + 20;
        } else if kind == 2 || kind == 3 {
          off := off + 20;
        } else {
          return false, off;
        }
        j := j + 1;
      }
    }

    method SflowRead(buf: Bytes)
      requires suspend != 0
      modifies this, collector
      ensures suspend == old(suspend) && collector.templates == old(collector.templates)
      ensures out == old(out) + BallsOf(Sampled(buf))
      decreases 0, 6
    {
      hide Samples, BallsOf, Be32, ParseEther, Balls, SkipExtensions, Decode;
      if |buf| < 24 || Be32(buf, 0) != 4 {
        NoBalls();
        return;
      }
      var num := Signed(Be32(buf, 20));
      var off: nat := 24;
      var i := 0;
      while i < num
        invariant 0 <= i && suspend == old(suspend) && collector.templates == old(collector.templates)
        invariant out + BallsOf(Samples(buf, off, num - i)) == old(out) + BallsOf(Sampled(buf))
        decreases num - i
      {
        SamplesUnfold(buf, off, num - i);
        if off + 48 > |buf| {
          break;
        }
        var len := Signed(Be32(buf, off + 40));
        var padding := if len % 4 > 0 then 4 - len % 4 else 0;
        off := off + 48;
        if len < 0 || len > |buf| - off {
          break;
        }
        ghost var before, rest := out, AfterSample(buf, off + len + padding, num - i - 1);
        BallsCons(buf[off..off + len], rest);
        EtherFrame(buf[off..off + len]);
        assert out == before + Balls(ParseEther(buf[off..off + len]));
        assert out + BallsOf(rest) == before + (Balls(ParseEther(buf[off..off + len])) + BallsOf(rest));
        off := off + len + padding;
        i := i + 1;
        if off + 4 > |buf| {
          NoBalls();
          assert out + [] == out;
          return;
        }
        var known, next := SflowExtensions(buf, off + 4, Signed(Be32(buf, off)));
        if !known {
          NoBalls();
          assert out + [] == out;
          return;
        }
        off := next;
      }
      SamplesUnfold(buf, off, num - i);
      NoBalls();
      assert out + [] == out;
    }
  }

  lemma NoBalls()
    ensures BallsOf([]) == []
  {
  }

  lemma BallsCons(frame: Bytes, rest: seq<Bytes>)
    ensures BallsOf([frame] + rest) == Balls(ParseEther(frame)) + BallsOf(rest)
  {
    assert ([frame] + rest)[1..] == rest;
  }

  // The samples after the one that ends at next, padding included.
  function AfterSample(buf: Bytes, next: nat, n: int): seq<Bytes> {
    if next + 4 > |buf| then []
    else
      match SkipExtensions(buf, next + 4, Signed(Be32(buf, next)))
      case None => []
      case Some(o) => Samples(buf, o, n)
  }

  lemma SamplesUnfold(buf: Bytes, off: nat, n: int)
    ensures n <= 0 || off + 48 > |buf| ==> Samples(buf, off, n) == []
    ensures n > 0 && off + 48 <= |buf| ==>
              var len, at := Signed(Be32(buf, off + 40)), off + 48;
              if len < 0 || len > |buf| - at then Samples(buf, off, n) == []
              else Samples(buf, off, n)
                   == [buf[at..at + len]] + AfterSample(buf, at + len + (if len % 4 > 0 then 4 - len % 4 else 0), n - 1)
  {
  }

  /** Nothing inside a translated sFlow datagram is translated again: each sampled frame gives at most
      one record and every one is a plain packet event, sampled flow exports included. */
  lemma {:induction false} SampledArePlain(frames: seq<Bytes>)
    ensures |BallsOf(frames)| <= |frames| && forall k :: 0 <= k < |BallsOf(frames)| ==> BallsOf(frames)[k].Ball?
  {
    if frames != [] {
      SampledArePlain(frames[1..]);
      hide ParseEther, BallsOf;
      BallsCons(frames[0], frames[1..]);
      assert frames == [frames[0]] + frames[1..];
    }
  }
}
