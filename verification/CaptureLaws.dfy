/** What senders put on the wire is what the capture chain reads: frames, segments, sFlow datagrams. */
module CaptureLaws {
  import opened Wrappers
  import opened Octets
  import FlowRecords
  import opened Capture

  // ---- frames -------------------------------------------------------------------------------

  // addresses holds both link addresses; tag is empty or one VLAN tag.
  function Ether(addresses: Bytes, tag: Bytes, kind: nat, packet: Bytes): Bytes
    requires kind < 0x1_0000
  {
    addresses + (if tag == [] then [] else U16(0x8100) + tag) + U16(kind) + packet
  }

  lemma EtherReads(addresses: Bytes, tag: Bytes, kind: nat, packet: Bytes)
    requires |addresses| == 12 && (|tag| == 0 || |tag| == 2) && kind < 0x1_0000 && kind != 0x8100
    ensures ParseEther(Ether(addresses, tag, kind, packet))
         == if kind == 0x0800 then Parse4(packet) else if kind == 0x86dd then Parse6(packet) else NoUpper
  {
    hide Parse4, Parse6, Be16, U16;
    var p := Ether(addresses, tag, kind, packet);
    if tag == [] {
      ReadU16(addresses, kind, packet);
      assert p == addresses + U16(kind) + packet;
      assert p[14..] == packet;
    } else {
      var front := addresses + U16(0x8100) + tag;
      ReadU16(addresses, 0x8100, tag + U16(kind) + packet);
      ReadU16(front, kind, packet);
      assert p == addresses + U16(0x8100) + (tag + U16(kind) + packet) == front + U16(kind) + packet;
      assert p[18..] == packet;
    }
  }

  // An IPv4 packet; options fill the header to words words.
  function Packet4(words: nat, before: Bytes, proto: u8, sum: Bytes, src: Bytes, dst: Bytes, options: Bytes, seg: Bytes): Bytes
    requires 5 <= words < 16
  {
    [(64 + words) as u8] + before + [proto] + sum + src + dst + options + seg
  }

  lemma Packet4Reads(words: nat, before: Bytes, proto: u8, sum: Bytes, src: Bytes, dst: Bytes, options: Bytes, seg: Bytes)
    requires 5 <= words < 16 && |before| == 8 && |sum| == 2 && |src| == 4 && |dst| == 4 && |options| == 4 * words - 20
    ensures Parse4(Packet4(words, before, proto, sum, src, dst, options, seg)) == Upper(proto as nat, false, src, dst, seg)
  {
    var p := Packet4(words, before, proto, sum, src, dst, options, seg);
    assert p[0] == (64 + words) as u8 && p[9] == proto;
    assert p[12..16] == src && p[16..20] == dst && p[4 * words..] == seg;
  }

  // An IPv6 packet with a chain of extension headers.
  function Packet6(before: Bytes, chain: seq<Ext>, upper: u8, hops: u8, src: Bytes, dst: Bytes, seg: Bytes): Bytes {
    before + [FirstKind(chain, upper)] + [hops] + src + dst + EncodeChain(chain, upper) + seg
  }

  lemma Packet6Reads(before: Bytes, chain: seq<Ext>, upper: u8, hops: u8, src: Bytes, dst: Bytes, seg: Bytes)
    requires |before| == 6 && |src| == 16 && |dst| == 16 && ChainValid(chain) && !Extension(upper) && seg != []
    ensures Parse6(Packet6(before, chain, upper, hops, src, dst, seg)) == Upper(upper as nat, true, src, dst, seg)
  {
    var fixed := before + [FirstKind(chain, upper)] + [hops] + src + dst;
    var p := Packet6(before, chain, upper, hops, src, dst, seg);
    assert p == fixed + EncodeChain(chain, upper) + seg && |fixed| == IP6_HEADER;
    WalkFindsChain(fixed, chain, upper, seg);
    hide WalkFrom, EncodeChain, ChainValid, FirstKind;
    assert p[6] == FirstKind(chain, upper) && p[8..24] == src && p[24..40] == dst;
    assert p[IP6_HEADER + |EncodeChain(chain, upper)|..] == seg;
  }

  /** An IPv4 frame, tagged or not and with any header options, reads back as its protocol, addresses
      and segment. */
  lemma Frame4RoundTrip(addresses: Bytes, tag: Bytes, words: nat, before: Bytes, proto: u8, sum: Bytes,
                        src: Bytes, dst: Bytes, options: Bytes, seg: Bytes)
    requires |addresses| == 12 && (|tag| == 0 || |tag| == 2)
    requires 5 <= words < 16 && |before| == 8 && |sum| == 2 && |src| == 4 && |dst| == 4 && |options| == 4 * words - 20
    ensures ParseEther(Ether(addresses, tag, 0x0800, Packet4(words, before, proto, sum, src, dst, options, seg)))
         == Upper(proto as nat, false, src, dst, seg)
  {
    hide *;
    EtherReads(addresses, tag, 0x0800, Packet4(words, before, proto, sum, src, dst, options, seg));
    Packet4Reads(words, before, proto, sum, src, dst, options, seg);
  }

  /** An IPv6 frame, tagged or not and with any chain of the four extension headers, reads back as its
      upper protocol, addresses and segment. */
  lemma Frame6RoundTrip(addresses: Bytes, tag: Bytes, before: Bytes, chain: seq<Ext>, upper: u8, hops: u8,
                        src: Bytes, dst: Bytes, seg: Bytes)
    requires |addresses| == 12 && (|tag| == 0 || |tag| == 2)
    requires |before| == 6 && |src| == 16 && |dst| == 16 && ChainValid(chain) && !Extension(upper) && seg != []
    ensures ParseEther(Ether(addresses, tag, 0x86dd, Packet6(before, chain, upper, hops, src, dst, seg)))
         == Upper(upper as nat, true, src, dst, seg)
  {
    hide *;
    EtherReads(addresses, tag, 0x86dd, Packet6(before, chain, upper, hops, src, dst, seg));
    Packet6Reads(before, chain, upper, hops, src, dst, seg);
  }

  // ---- segments --------------------------------------------------------------------------------

  lemma Ports(sport: nat, dport: nat, rest: Bytes)
    requires sport < 0x1_0000 && dport < 0x1_0000
    ensures var seg := U16(sport) + U16(dport) + rest; Be16(seg, 0) == sport && Be16(seg, 2) == dport
  {
    ReadU16([], sport, U16(dport) + rest);
    ReadU16(U16(sport), dport, rest);
    assert U16(sport) + U16(dport) + rest == [] + U16(sport) + (U16(dport) + rest);
  }

  /** A UDP segment that is not translated becomes one event with its ports and its family's flag. */
  lemma UdpEvent(v6: bool, src: Bytes, dst: Bytes, sport: nat, dport: nat, check: Bytes, payload: Bytes)
    requires sport < 0x1_0000 && dport < 0x1_0000 && |check| == 4
    ensures Balls(Upper(17, v6, src, dst, U16(sport) + U16(dport) + (check + payload)))
         == [Ball(v6, src, dst, sport, dport, if v6 then 8 else 3)]
  {
    Ports(sport, dport, check + payload);
    hide Be16, U16;
  }

  /** A TCP segment becomes one event with its ports; SYN outranks FIN and RST in the flag. */
  lemma TcpEvent(v6: bool, src: Bytes, dst: Bytes, sport: nat, dport: nat, mid: Bytes, bits: u8, rest: Bytes)
    requires sport < 0x1_0000 && dport < 0x1_0000 && |mid| == 9 && |rest| >= 6
    ensures var base := if v6 then 5 else 0;
            var syn, finrst := bits / 2 % 2 == 1, bits % 2 == 1 || bits / 4 % 2 == 1;
            Balls(Upper(6, v6, src, dst, U16(sport) + U16(dport) + (mid + [bits] + rest)))
            == [Ball(v6, src, dst, sport, dport, if syn then base + 1 else if finrst then base + 2 else base)]
  {
    var seg := U16(sport) + U16(dport) + (mid + [bits] + rest);
    Ports(sport, dport, mid + [bits] + rest);
    hide Be16, U16;
    assert seg[13] == bits && |seg| >= 20;
  }

  // ---- sFlow datagrams ----------------------------------------------------------------------------

  // An extension record: its kind and its other sixteen octets.
  datatype Extra = Extra(kind: nat, rest: Bytes)

  // A flow sample with a raw packet header, section 5 of RFC 3176: ten words, the length of the packet
  // on its network, the octets sampled from its front, their padding, the extension records.
  datatype Sample = Sample(words: Bytes, frameLength: nat, header: Bytes, pad: Bytes, extras: seq<Extra>)

  predicate ExtraValid(e: Extra) { 1 <= e.kind <= 3 && |e.rest| == 16 }

  function PadSize(n: nat): nat { if n % 4 > 0 then 4 - n % 4 else 0 }

  predicate SampleValid(s: Sample) {
    && |s.words| == 40 && s.frameLength < 0x1_0000_0000 && |s.header| < 0x8000_0000 && |s.extras| < 0x8000_0000
    && |s.pad| == PadSize(|s.header|)
    && forall i :: 0 <= i < |s.extras| ==> ExtraValid(s.extras[i])
  }

  predicate AllExtras(es: seq<Extra>) { forall i :: 0 <= i < |es| ==> ExtraValid(es[i]) }

  function EncodeExtras(es: seq<Extra>): (b: Bytes)
    requires AllExtras(es)
    ensures |b| == 20 * |es|
  {
    if es == [] then [] else U32(es[0].kind) + es[0].rest + EncodeExtras(es[1..])
  }

  function EncodeSample(s: Sample): Bytes
    requires SampleValid(s)
  {
    s.words + U32(s.frameLength) + U32(|s.header|) + s.header + s.pad + U32(|s.extras|) + EncodeExtras(s.extras)
  }

  predicate AllSamples(ss: seq<Sample>) { forall i :: 0 <= i < |ss| ==> SampleValid(ss[i]) }

  function EncodeSamples(ss: seq<Sample>): Bytes
    requires AllSamples(ss)
  {
    if ss == [] then [] else EncodeSample(ss[0]) + EncodeSamples(ss[1..])
  }

  function Headers(ss: seq<Sample>): seq<Bytes> {
    if ss == [] then [] else [ss[0].header] + Headers(ss[1..])
  }

  // The packet was sampled whole.
  predicate Whole(s: Sample) { s.frameLength == |s.header| }

  // mid is the address type, the IPv4 agent address, the sequence number and the uptime.
  function SflowDatagram(mid: Bytes, ss: seq<Sample>, rest: Bytes): Bytes
    requires AllSamples(ss) && |ss| < 0x8000_0000
  {
    U32(4) + mid + U32(|ss|) + (EncodeSamples(ss) + rest)
  }

  lemma {:induction false} ExtrasSkipped(pre: Bytes, es: seq<Extra>, post: Bytes)
    requires AllExtras(es)
    ensures SkipExtensions(pre + EncodeExtras(es) + post, |pre|, |es|) == Some(|pre| + 20 * |es|)
    decreases |es|
  {
    hide Be32, U32;
    if es != [] {
      var e, more := U32(es[0].kind) + es[0].rest, EncodeExtras(es[1..]);
      var buf := pre + EncodeExtras(es) + post;
      assert ExtraValid(es[0]) && |e| == 20;
      ReadU32(pre, es[0].kind, es[0].rest + more + post);
      assert buf == pre + U32(es[0].kind) + (es[0].rest + more + post) == (pre + e) + more + post;
      ExtrasSkipped(pre + e, es[1..], post);
    }
  }

  // The words of one sample, read where it stands.
  lemma SampleReads(pre: Bytes, s: Sample, post: Bytes)
    requires SampleValid(s)
    ensures var buf, at := pre + EncodeSample(s) + post, |pre| + 48;
            var next := at + |s.header| + |s.pad|;
            && next + 4 <= |pre + EncodeSample(s)| <= |buf|
            && Be32(buf, |pre| + 40) == s.frameLength && buf[at..at + |s.header|] == s.header
            && Be32(buf, next) == |s.extras|
            && SkipExtensions(buf, next + 4, |s.extras|) == Some(|pre + EncodeSample(s)|)
  {
    hide *;
    Sizes(s);
    var n, t, k, x := U32(s.frameLength), U32(|s.header|), U32(|s.extras|), EncodeExtras(s.extras);
    SampleParts(pre, s, n, t, k, x, post);
    ReadU32(pre + s.words, s.frameLength, t + s.header + s.pad + k + x + post);
    ReadU32(pre + s.words + n + t + s.header + s.pad, |s.extras|, x + post);
    ExtrasSkipped(pre + s.words + n + t + s.header + s.pad + k, s.extras, post);
    Middle(pre + s.words + n + t, s.header, s.pad + k + x + post);
    assert |pre + EncodeSample(s) + post| == |pre + EncodeSample(s)| + |post|;
  }

  lemma Middle(a: Bytes, b: Bytes, c: Bytes)
    ensures (a + b + c)[|a|..|a| + |b|] == b
  {
  }

  // One sample's octets, split before each of its parts.
  lemma SampleParts(pre: Bytes, s: Sample, n: Bytes, t: Bytes, k: Bytes, x: Bytes, post: Bytes)
    requires SampleValid(s) && n == U32(s.frameLength) && t == U32(|s.header|)
    requires k == U32(|s.extras|) && x == EncodeExtras(s.extras)
    ensures var buf := pre + EncodeSample(s) + post;
            && buf == (pre + s.words) + n + (t + s.header + s.pad + k + x + post)
            && buf == (pre + s.words + n + t + s.header + s.pad) + k + (x + post)
            && buf == (pre + s.words + n + t + s.header + s.pad + k) + x + post
            && buf == (pre + s.words + n + t) + s.header + (s.pad + k + x + post)
    ensures |pre + s.words| == |pre| + 40 && |pre + s.words + n + t| == |pre| + 48
    ensures |pre + s.words + n + t + s.header + s.pad| == |pre| + 48 + |s.header| + |s.pad|
    ensures |pre + s.words + n + t + s.header + s.pad + k| == |pre| + 52 + |s.header| + |s.pad|
    ensures |pre + EncodeSample(s)| == |pre| + 52 + |s.header| + |s.pad| + 20 * |s.extras|
  {
    var h, f, p := s.words, s.header, s.pad;
    assert EncodeSample(s) == h + n + t + f + p + k + x;
    assert |h| == 40 && |n| == 4 && |t| == 4 && |k| == 4 && |x| == 20 * |s.extras|;
    hide *;
    SevenParts(pre, h, n, t, f, p, k, x, post);
  }

  lemma SevenParts(a: Bytes, h: Bytes, n: Bytes, t: Bytes, f: Bytes, p: Bytes, k: Bytes, x: Bytes, z: Bytes)
    ensures var buf := a + (h + n + t + f + p + k + x) + z;
            && buf == (a + h) + n + (t + f + p + k + x + z)
            && buf == (a + h + n + t + f + p) + k + (x + z)
            && buf == (a + h + n + t + f + p + k) + x + z
            && buf == (a + h + n + t) + f + (p + k + x + z)
  {
    var flat := a + h + n + t + f + p + k + x + z;
    assert a + (h + n + t + f + p + k + x) + z == flat;
    assert (a + h) + n + (t + f + p + k + x + z) == flat;
    assert (a + h + n + t + f + p) + k + (x + z) == flat;
    assert (a + h + n + t) + f + (p + k + x + z) == flat;
  }

  // The walk over the samples gives their headers exactly when every packet was sampled whole.
  lemma {:induction false} SamplesIff(pre: Bytes, ss: seq<Sample>, post: Bytes)
    requires AllSamples(ss)
    ensures Samples(pre + EncodeSamples(ss) + post, |pre|, |ss|) == Headers(ss)
       <==> forall i :: 0 <= i < |ss| ==> Whole(ss[i])
    decreases |ss|
  {
    hide *;
    if ss == [] {
      SamplesUnfold(pre + EncodeSamples(ss) + post, |pre|, 0);
      NoHeaders();
    } else {
      SamplesCons(ss);
      var e, more := EncodeSample(ss[0]), EncodeSamples(ss[1..]);
      assert pre + (e + more) + post == pre + e + (more + post) == (pre + e) + more + post;
      assert forall i :: 0 < i < |ss| ==> ss[i] == ss[1..][i - 1];
      assert forall i :: 0 <= i < |ss| - 1 ==> ss[1..][i] == ss[i + 1];
      if Whole(ss[0]) {
        SamplesIff(pre + e, ss[1..], post);
        SampleTaken(pre, ss[0], more + post, |ss|);
        SameTail(ss[0].header, Samples(pre + (e + more) + post, |pre + e|, |ss| - 1), Headers(ss[1..]));
      } else {
        SampleMissed(pre, ss[0], more + post, |ss|);
      }
    }
  }

  lemma NoHeaders()
    ensures Headers([]) == []
  {
  }

  lemma SameTail(x: Bytes, a: seq<Bytes>, b: seq<Bytes>)
    ensures [x] + a == [x] + b <==> a == b
  {
    assert ([x] + a)[1..] == a && ([x] + b)[1..] == b;
  }

  lemma SamplesCons(ss: seq<Sample>)
    requires AllSamples(ss) && ss != []
    ensures SampleValid(ss[0]) && AllSamples(ss[1..]) && Headers(ss) == [ss[0].header] + Headers(ss[1..])
    ensures EncodeSamples(ss) == EncodeSample(ss[0]) + EncodeSamples(ss[1..])
  {
    hide SampleValid, EncodeSample;
  }

  // A packet sampled whole is taken, and the walk goes on behind its sample.
  lemma SampleTaken(pre: Bytes, s: Sample, post: Bytes, n: nat)
    requires SampleValid(s) && Whole(s) && n > 0
    ensures var buf := pre + EncodeSample(s) + post;
            Samples(buf, |pre|, n) == [s.header] + Samples(buf, |pre + EncodeSample(s)|, n - 1)
  {
    hide *;
    var buf, at := pre + EncodeSample(s) + post, |pre| + 48;
    Sizes(s);
    SampleReads(pre, s, post);
    SampleFirst(buf, |pre|, |s.header|, n);
    AfterIs(buf, at + |s.header| + |s.pad|, |s.extras|, |pre + EncodeSample(s)|, n - 1);
  }

  // Of any other the walk takes nothing, or octets of another length.
  lemma SampleMissed(pre: Bytes, s: Sample, post: Bytes, n: nat)
    requires SampleValid(s) && !Whole(s) && n > 0
    ensures var taken := Samples(pre + EncodeSample(s) + post, |pre|, n);
            taken == [] || |taken[0]| != |s.header|
  {
    hide *;
    Sizes(s);
    SampleReads(pre, s, post);
    FirstLength(pre + EncodeSample(s) + post, |pre|, n);
  }

  // The first frame taken is as long as word 11 says.
  lemma FirstLength(buf: Bytes, off: nat, n: nat)
    requires off + 48 <= |buf|
    ensures var taken := Samples(buf, off, n); taken == [] || |taken[0]| == Be32(buf, off + 40)
  {
    SamplesUnfold(buf, off, n);
    hide Samples, Be32, AfterSample;
  }

  lemma SampleFirst(buf: Bytes, off: nat, len: nat, n: nat)
    requires n > 0 && off + 48 + len <= |buf| && Be32(buf, off + 40) == len < 0x8000_0000
    ensures Samples(buf, off, n)
         == [buf[off + 48..off + 48 + len]] + AfterSample(buf, off + 48 + len + PadSize(len), n - 1)
  {
    SamplesUnfold(buf, off, n);
    hide Samples, Be32, AfterSample;
  }

  lemma AfterIs(buf: Bytes, next: nat, k: nat, o: nat, n: nat)
    requires next + 4 <= |buf| && Be32(buf, next) == k < 0x8000_0000 && SkipExtensions(buf, next + 4, k) == Some(o)
    ensures AfterSample(buf, next, n) == Samples(buf, o, n)
  {
    hide Samples, Be32, SkipExtensions;
  }

  lemma Sizes(s: Sample)
    requires SampleValid(s)
    ensures |s.words| == 40 && s.frameLength < 0x1_0000_0000 && |s.header| < 0x8000_0000 && |s.extras| < 0x8000_0000
    ensures |s.pad| == PadSize(|s.header|) && AllExtras(s.extras) && (Whole(s) <==> s.frameLength == |s.header|)
  {
    hide PadSize;
  }

  /** An sFlow v4 datagram gives its sampled headers, in order, exactly when every packet was sampled
      whole: the code takes the packet's length for the length of the octets that follow. What follows
      the samples makes no difference. */
  lemma SflowIff(mid: Bytes, ss: seq<Sample>, rest: Bytes)
    requires |mid| == 16 && AllSamples(ss) && |ss| < 0x8000_0000
    ensures Sampled(SflowDatagram(mid, ss, rest)) == Headers(ss) <==> forall i :: 0 <= i < |ss| ==> Whole(ss[i])
  {
    hide EncodeSamples, Be32, U32, Samples, SflowDatagram, Headers, Whole, AllSamples;
    DatagramReads(mid, ss, rest);
    SamplesIff(U32(4) + mid + U32(|ss|), ss, rest);
  }

  /** A packet longer than all that is left of the datagram loses its own sample and every later one. */
  lemma LongPacketLost(mid: Bytes, ss: seq<Sample>, rest: Bytes)
    requires |mid| == 16 && AllSamples(ss) && 0 < |ss| < 0x8000_0000
    requires 72 + ss[0].frameLength > |SflowDatagram(mid, ss, rest)|
    ensures Sampled(SflowDatagram(mid, ss, rest)) == []
  {
    hide *;
    var front := U32(4) + mid + U32(|ss|);
    DatagramReads(mid, ss, rest);
    SampledIs(SflowDatagram(mid, ss, rest), |ss|);
    SamplesCons(ss);
    var e, more := EncodeSample(ss[0]), EncodeSamples(ss[1..]);
    assert front + (e + more) + rest == front + e + (more + rest);
    Sizes(ss[0]);
    SampleReads(front, ss[0], more + rest);
    TooLong(SflowDatagram(mid, ss, rest), |ss|);
  }

  lemma SampledIs(buf: Bytes, n: nat)
    requires |buf| >= 24 && Be32(buf, 0) == 4 && Be32(buf, 20) == n < 0x8000_0000
    ensures Sampled(buf) == Samples(buf, 24, n)
  {
    hide Be32, Samples;
  }

  lemma TooLong(buf: Bytes, n: nat)
    requires 72 <= |buf| < 72 + Be32(buf, 64)
    ensures Samples(buf, 24, n) == []
  {
    SamplesUnfold(buf, 24, n);
    hide Be32, Samples;
  }

  /** So a 1500-octet packet of which 128 octets are sampled, as usual, gives nothing at all. */
  lemma UsualSampleLost(mid: Bytes, words: Bytes, header: Bytes)
    requires |mid| == 16 && |words| == 40 && |header| == 128
    ensures var s := Sample(words, 1500, header, [], []);
            SampleValid(s) && Sampled(SflowDatagram(mid, [s], [])) == [] != Headers([s])
  {
    var s := Sample(words, 1500, header, [], []);
    assert SampleValid(s) && AllSamples([s]);
    assert |EncodeSample(s)| == 180 && |Headers([s])| == 1;
    assert EncodeSamples([s]) == EncodeSample(s) + EncodeSamples([s][1..]);
    LongPacketLost(mid, [s], []);
    hide EncodeSample, Sampled;
  }

  lemma DatagramReads(mid: Bytes, ss: seq<Sample>, rest: Bytes)
    requires |mid| == 16 && AllSamples(ss) && |ss| < 0x8000_0000
    ensures var buf, front := SflowDatagram(mid, ss, rest), U32(4) + mid + U32(|ss|);
            && buf == front + EncodeSamples(ss) + rest && |front| == 24 && |buf| >= 24
            && Be32(buf, 0) == 4 && Be32(buf, 20) == |ss|
  {
    hide EncodeSamples, Be32, U32;
    var n, body := U32(|ss|), EncodeSamples(ss) + rest;
    ReadU32([], 4, mid + n + body);
    ReadU32(U32(4) + mid, |ss|, body);
    FourParts(U32(4), mid, n, EncodeSamples(ss), rest);
  }

  lemma FourParts(a: Bytes, b: Bytes, c: Bytes, d: Bytes, e: Bytes)
    ensures a + b + c + (d + e) == [] + a + (b + c + (d + e)) == (a + b) + c + (d + e) == (a + b + c) + d + e
  {
  }

  /** A captured UDP datagram of sFlow becomes the plain events of the frames read from it, which are
      its sampled headers exactly when every packet was sampled whole; captured inside another
      translation it is one plain event itself. */
  lemma TranslatedOnce(cache: FlowRecords.Cache, v6: bool, src: Bytes, dst: Bytes, sport: nat, dport: nat,
                       check: Bytes, mid: Bytes, ss: seq<Sample>, rest: Bytes)
    requires sport < 0x1_0000 && dport < 0x1_0000 && |check| == 4
    requires |mid| == 16 && AllSamples(ss) && |ss| < 0x8000_0000
    ensures var d := SflowDatagram(mid, ss, rest);
            var u := Upper(17, v6, src, dst, U16(sport) + U16(dport) + (check + d));
            && Handle(SFlow, false, cache, u) == (cache, BallsOf(Sampled(d)))
            && (Sampled(d) == Headers(ss) <==> forall i :: 0 <= i < |ss| ==> Whole(ss[i]))
            && Handle(SFlow, true, cache, u) == (cache, [Ball(v6, src, dst, sport, dport, if v6 then 8 else 3)])
  {
    hide *;
    var d := SflowDatagram(mid, ss, rest);
    DatagramReads(mid, ss, rest);
    UdpEvent(v6, src, dst, sport, dport, check, d);
    SflowIff(mid, ss, rest);
    var seg := U16(sport) + U16(dport) + (check + d);
    assert seg[8..] == d;
    HandleUdp(cache, Upper(17, v6, src, dst, seg));
  }

  lemma HandleUdp(cache: FlowRecords.Cache, u: Upper)
    requires u.Upper? && u.proto == 17 && |u.seg| > 8
    ensures Handle(SFlow, false, cache, u) == (cache, BallsOf(Sampled(u.seg[8..])))
    ensures Handle(SFlow, true, cache, u) == (cache, Balls(u))
  {
    hide BallsOf, Sampled, Balls;
  }
}
