/** What an exporter sends is what the decoder emits: template layout and flow round trip. The
    exporter follows section 5 of RFC 3954 and sections 3.2 to 3.4 of RFC 7011. */
module FlowRoundTrip {
  import opened Wrappers
  import opened Octets
  import opened FlowRecords

  // A field specifier; number is the enterprise number IPFIX adds when the type has the 0x8000 bit.
  datatype Field = Field(ie: nat, len: nat, number: nat)

  predicate FieldValid(f: Field) { f.ie < 0x1_0000 && f.len < 0x1_0000 && f.number < 0x1_0000_0000 }

  predicate AllValid(fs: seq<Field>) { forall i :: 0 <= i < |fs| ==> FieldValid(fs[i]) }

  predicate Enterprise(f: Field, ipfix: bool) { ipfix && f.ie >= 0x8000 }

  function EncodeField(f: Field, ipfix: bool): Bytes
    requires FieldValid(f)
  {
    U16(f.ie) + U16(f.len) + if Enterprise(f, ipfix) then U32(f.number) else []
  }

  function EncodeFields(fs: seq<Field>, ipfix: bool): Bytes
    requires AllValid(fs)
  {
    if fs == [] then [] else EncodeField(fs[0], ipfix) + EncodeFields(fs[1..], ipfix)
  }

  // One template; rest is whatever follows it in the set, padding or further templates.
  function TemplateSetBytes(id: nat, tid: nat, fs: seq<Field>, ipfix: bool, rest: Bytes): Bytes
    requires id < 0x1_0000 && tid < 0x1_0000 && |fs| < 0x1_0000 && AllValid(fs)
    requires 8 + |EncodeFields(fs, ipfix)| + |rest| < 0x1_0000
  {
    U16(id) + U16(8 + |EncodeFields(fs, ipfix)| + |rest|) + U16(tid) + U16(|fs|) + (EncodeFields(fs, ipfix) + rest)
  }

  function DataSetBytes(tid: nat, records: seq<Bytes>, pad: Bytes): Bytes
    requires tid < 0x1_0000 && 4 + |Concat(records)| + |pad| < 0x1_0000
  {
    U16(tid) + U16(4 + |Concat(records)| + |pad|) + (Concat(records) + pad)
  }

  // ---- the layout a field list calls for -------------------------------------------

  function LenOf(fs: seq<Field>): nat {
    if fs == [] then 0 else LenOf(fs[..|fs| - 1]) + fs[|fs| - 1].len
  }

  // The last field whose type is in ies, or -1.
  function LastIndex(fs: seq<Field>, ies: set<nat>): (i: int)
    ensures -1 <= i < |fs|
    ensures i >= 0 ==> fs[i].ie in ies
    ensures i < 0 <==> forall k :: 0 <= k < |fs| ==> fs[k].ie !in ies
  {
    if fs == [] then -1
    else if fs[|fs| - 1].ie in ies then |fs| - 1
    else LastIndex(fs[..|fs| - 1], ies)
  }

  // The sum of the lengths before that field.
  function OffsetOf(fs: seq<Field>, ies: set<nat>): int {
    var i := LastIndex(fs, ies);
    if i < 0 then ABSENT else LenOf(fs[..i])
  }

  predicate Has(fs: seq<Field>, ies: set<nat>) { LastIndex(fs, ies) >= 0 }

  const SRC := {IPV4_SRC_ADDR, IPV6_SRC_ADDR}
  const DST := {IPV4_DST_ADDR, IPV6_DST_ADDR}
  const V6 := {IPV6_SRC_ADDR, IPV6_DST_ADDR}

  // Every offset is the prefix sum of the field lengths before it.
  function Layout(fs: seq<Field>): Template {
    Template(OffsetOf(fs, SRC), OffsetOf(fs, DST), OffsetOf(fs, {L4_SRC_PORT}), OffsetOf(fs, {L4_DST_PORT}),
             Has(fs, V6), OffsetOf(fs, {IN_PROTOCOL}), OffsetOf(fs, {ICMP_TYPE}), OffsetOf(fs, {TCP_FLAGS}), LenOf(fs))
  }

  predicate FixedLength(fs: seq<Field>) { forall i :: 0 <= i < |fs| ==> fs[i].len != VARLEN }

  // The scanner's state after the fields fs.
  function ScanOf(fs: seq<Field>, ipfix: bool): Scan {
    if fs == [] then Scan(EMPTY, 0, false)
    else
      var f := fs[|fs| - 1];
      ScanOf(fs[..|fs| - 1], ipfix).Take(f.ie, f.len, Enterprise(f, ipfix))
  }

  lemma OffsetStep(fs: seq<Field>, ies: set<nat>)
    requires fs != []
    ensures var init, f := fs[..|fs| - 1], fs[|fs| - 1];
            OffsetOf(fs, ies) == if f.ie in ies then LenOf(init) else OffsetOf(init, ies)
  {
    var n := |fs| - 1;
    var i := LastIndex(fs, ies);
    if 0 <= i < n { assert fs[..n][..i] == fs[..i]; }
  }

  lemma {:induction false} ScanIsLayout(fs: seq<Field>, ipfix: bool)
    requires FixedLength(fs)
    ensures ScanOf(fs, ipfix) == Scan(Layout(fs).(recordLen := 0), LenOf(fs), false)
  {
    if fs == [] {
    } else {
      ScanIsLayout(fs[..|fs| - 1], ipfix);
      OffsetStep(fs, SRC);
      OffsetStep(fs, DST);
      OffsetStep(fs, {L4_SRC_PORT});
      OffsetStep(fs, {L4_DST_PORT});
      OffsetStep(fs, {IN_PROTOCOL});
      OffsetStep(fs, {ICMP_TYPE});
      OffsetStep(fs, {TCP_FLAGS});
      hide OffsetOf;
    }
  }

  lemma FieldHead(pre: Bytes, f: Field, ipfix: bool, post: Bytes)
    requires FieldValid(f)
    ensures var buf := pre + EncodeField(f, ipfix) + post;
            Be16(buf, |pre|) == f.ie && Be16(buf, |pre| + 2) == f.len
  {
    var tail := (if Enterprise(f, ipfix) then U32(f.number) else []) + post;
    ReadU16(pre, f.ie, U16(f.len) + tail);
    ReadU16(pre + U16(f.ie), f.len, tail);
    assert pre + EncodeField(f, ipfix) + post == pre + U16(f.ie) + (U16(f.len) + tail);
    assert pre + EncodeField(f, ipfix) + post == (pre + U16(f.ie)) + U16(f.len) + tail;
  }

  lemma {:induction false} ScanEncoded(pre: Bytes, done: seq<Field>, todo: seq<Field>, ipfix: bool, post: Bytes)
    requires AllValid(todo)
    ensures ScanFields(pre + EncodeFields(todo, ipfix) + post, |pre|, |todo|, ScanOf(done, ipfix), ipfix)
         == ScanOf(done + todo, ipfix)
    decreases |todo|
  {
    hide *;
    if todo == [] {
      ScanNone(pre + EncodeFields(todo, ipfix) + post, |pre|, ScanOf(done, ipfix), ipfix);
      assert done + todo == done;
    } else {
      var f, fs := todo[0], todo[1..];
      EncodeCons(todo, ipfix);
      var e := EncodeField(f, ipfix);
      var rest := EncodeFields(fs, ipfix);
      assert pre + (e + rest) + post == pre + e + (rest + post) == (pre + e) + rest + post;
      ScanOne(pre, f, ipfix, rest + post, |todo|, done);
      ScanEncoded(pre + e, done + [f], fs, ipfix, post);
      assert |pre + e| == |pre| + |e| && done + [f] + fs == done + todo;
    }
  }

  lemma EncodeCons(todo: seq<Field>, ipfix: bool)
    requires AllValid(todo) && todo != []
    ensures FieldValid(todo[0]) && AllValid(todo[1..])
    ensures EncodeFields(todo, ipfix) == EncodeField(todo[0], ipfix) + EncodeFields(todo[1..], ipfix)
  {
    hide EncodeField;
  }

  lemma ScanNone(buf: Bytes, off: nat, s: Scan, ipfix: bool)
    requires off <= |buf|
    ensures ScanFields(buf, off, 0, s, ipfix) == s
  {
  }

  // The scan takes one whole field specifier.
  lemma ScanOne(pre: Bytes, f: Field, ipfix: bool, tail: Bytes, left: nat, done: seq<Field>)
    requires FieldValid(f) && left > 0
    ensures var e := EncodeField(f, ipfix);
            ScanFields(pre + e + tail, |pre|, left, ScanOf(done, ipfix), ipfix)
            == ScanFields(pre + e + tail, |pre + e|, left - 1, ScanOf(done + [f], ipfix), ipfix)
  {
    FieldHead(pre, f, ipfix, tail);
    assert (done + [f])[..|done + [f]| - 1] == done;
    hide U16, U32, Be16, Scan.Take;
  }

  /** A template set leaves, in the cache, the layout of its first template, whatever follows it. */
  lemma TemplateLearnt(cache: Cache, key: nat, id: nat, tid: nat, fs: seq<Field>, ipfix: bool, rest: Bytes)
    requires id < 0x1_0000 && tid < 0x1_0000 && |fs| < 0x1_0000 && AllValid(fs)
    requires 8 + |EncodeFields(fs, ipfix)| + |rest| < 0x1_0000
    ensures LearnTemplate(cache, TemplateSetBytes(id, tid, fs, ipfix, rest), key, ipfix)
         == cache[(key, tid) := ScanOf(fs, ipfix).Result()]
  {
    var s, e := TemplateSetBytes(id, tid, fs, ipfix, rest), EncodeFields(fs, ipfix);
    TemplateHead(id, tid, fs, ipfix, rest);
    hide Be16, ScanFields, ScanOf, EncodeFields, TemplateSetBytes;
    ScanOfNone(ipfix);
    ScanEncoded(s[..8], [], fs, ipfix, rest);
    assert [] + fs == fs;
  }

  lemma TemplateHead(id: nat, tid: nat, fs: seq<Field>, ipfix: bool, rest: Bytes)
    requires id < 0x1_0000 && tid < 0x1_0000 && |fs| < 0x1_0000 && AllValid(fs)
    requires 8 + |EncodeFields(fs, ipfix)| + |rest| < 0x1_0000
    ensures var s := TemplateSetBytes(id, tid, fs, ipfix, rest);
            |s| >= 8 && Be16(s, 4) == tid && Be16(s, 6) == |fs| && s == s[..8] + EncodeFields(fs, ipfix) + rest
  {
    var e := EncodeFields(fs, ipfix);
    hide Be16, EncodeFields, U16;
    HeadReads(U16(id) + U16(8 + |e| + |rest|), tid, |fs|, e + rest);
    var s := TemplateSetBytes(id, tid, fs, ipfix, rest);
    assert s == s[..8] + (e + rest) == s[..8] + e + rest;
  }

  lemma HeadReads(a: Bytes, t: nat, n: nat, body: Bytes)
    requires |a| == 4 && t < 0x1_0000 && n < 0x1_0000
    ensures var s := a + U16(t) + U16(n) + body; |s| == 8 + |body| && Be16(s, 4) == t && Be16(s, 6) == n && s[8..] == body
  {
    hide Be16, U16;
    ReadU16(a + U16(t), n, body);
    ReadU16(a, t, U16(n) + body);
    assert a + U16(t) + (U16(n) + body) == a + U16(t) + U16(n) + body;
  }

  lemma ScanOfNone(ipfix: bool)
    ensures ScanOf([], ipfix) == Scan(EMPTY, 0, false)
  {
  }

  lemma {:induction false} VariableSticks(fs: seq<Field>, ipfix: bool, i: nat)
    requires i < |fs| && fs[i].len == VARLEN
    ensures ScanOf(fs, ipfix).variable
  {
    if i < |fs| - 1 { VariableSticks(fs[..|fs| - 1], ipfix, i); }
  }

  /** A variable-length field makes the template unusable: its data sets emit nothing. */
  lemma VariableLengthIgnored(cache: Cache, key: nat, id: nat, tid: nat, fs: seq<Field>, ipfix: bool, rest: Bytes,
                              i: nat, fset: Bytes)
    requires id < 0x1_0000 && tid < 0x1_0000 && |fs| < 0x1_0000 && AllValid(fs)
    requires 8 + |EncodeFields(fs, ipfix)| + |rest| < 0x1_0000
    requires i < |fs| && fs[i].len == VARLEN
    requires |fset| >= 2 && Be16(fset, 0) == tid
    ensures DecodeSet(LearnTemplate(cache, TemplateSetBytes(id, tid, fs, ipfix, rest), key, ipfix), fset, key) == []
  {
    TemplateLearnt(cache, key, id, tid, fs, ipfix, rest);
    VariableSticks(fs, ipfix, i);
    hide LearnTemplate, TemplateSetBytes, ScanOf;
  }

  // ---- the flows the exporter means ---------------------------------------------------

  datatype FlowData = FlowData(isv6: bool, src: Bytes, dst: Bytes, sport: nat, dport: nat,
                               proto: u8, icmp: nat, control: nat)

  predicate DataValid(d: FlowData) {
    && |d.src| == |d.dst| == (if d.isv6 then 16 else 4)
    && d.sport < 0x1_0000 && d.dport < 0x1_0000 && d.icmp < 0x1_0000 && d.control < 0x1_0000
  }

  predicate Known(ie: nat) {
    ie in {IN_PROTOCOL, TCP_FLAGS, L4_SRC_PORT, IPV4_SRC_ADDR, L4_DST_PORT, IPV4_DST_ADDR,
           IPV6_SRC_ADDR, IPV6_DST_ADDR, ICMP_TYPE}
  }

  // The octets of a field of type ie and length len in the record of d. TCP control bits take one octet,
  // or two (RFC 7125).
  function FieldOctets(d: FlowData, ie: nat, len: nat): Bytes
    requires DataValid(d) && Known(ie)
  {
    if ie in SRC then d.src
    else if ie in DST then d.dst
    else if ie == L4_SRC_PORT then U16(d.sport)
    else if ie == L4_DST_PORT then U16(d.dport)
    else if ie == ICMP_TYPE then U16(d.icmp)
    else if ie == IN_PROTOCOL then [d.proto]
    else if len == 2 then U16(d.control)
    else [(d.control % 256) as u8]
  }

  // The octet of the control bits that the decoder reads: the field's first.
  function FlagOctet(fs: seq<Field>, d: FlowData): u8
    requires Has(fs, {TCP_FLAGS})
  {
    (if fs[LastIndex(fs, {TCP_FLAGS})].len == 2 then d.control / 256 % 256 else d.control % 256) as u8
  }

  predicate AddressType(ie: nat, isv6: bool) {
    ie == (if isv6 then IPV6_SRC_ADDR else IPV4_SRC_ADDR) || ie == (if isv6 then IPV6_DST_ADDR else IPV4_DST_ADDR)
  }

  // vals are the record's field values: those of d for the known types, anything for the others.
  ghost predicate Carries(fs: seq<Field>, vals: seq<Bytes>, d: FlowData)
  {
    && DataValid(d) && |vals| == |fs|
    && (forall i :: 0 <= i < |fs| ==> |vals[i]| == fs[i].len)
    && (forall i :: 0 <= i < |fs| && Known(fs[i].ie) ==> vals[i] == FieldOctets(d, fs[i].ie, fs[i].len))
    && (forall i :: 0 <= i < |fs| && fs[i].ie in SRC + DST ==> AddressType(fs[i].ie, d.isv6))
  }

  // What should be emitted for d: nothing unless the template has the fields its protocol needs.
  function Reported(fs: seq<Field>, d: FlowData): Option<Flow> {
    var v6 := d.isv6;
    if d.proto == 6 && Has(fs, {L4_SRC_PORT}) && Has(fs, {L4_DST_PORT}) then
      var base := if v6 then 5 else 0;
      Some(Flow(v6, d.src, d.dst, d.sport, d.dport, if Has(fs, {TCP_FLAGS}) then TcpFlag(base, FlagOctet(fs, d)) else base, 6))
    else if d.proto == 17 && Has(fs, {L4_SRC_PORT}) && Has(fs, {L4_DST_PORT}) then
      Some(Flow(v6, d.src, d.dst, d.sport, d.dport, if v6 then 8 else 3, 17))
    else if (d.proto == 1 || d.proto == 58) && Has(fs, {ICMP_TYPE}) then
      Some(Flow(v6, d.src, d.dst, d.icmp, d.icmp, if d.proto == 58 then 9 else 4, d.proto))
    else None
  }

  function ReportedAll(fs: seq<Field>, ds: seq<FlowData>): seq<Flow> {
    if ds == [] then [] else Emitted(Reported(fs, ds[0])) + ReportedAll(fs, ds[1..])
  }

  lemma {:induction false} PrefixLength(fs: seq<Field>, vals: seq<Bytes>)
    requires |vals| == |fs| && forall i :: 0 <= i < |fs| ==> |vals[i]| == fs[i].len
    ensures |Concat(vals)| == LenOf(fs)
  {
    if fs != [] {
      var n := |fs| - 1;
      PrefixLength(fs[..n], vals[..n]);
      ConcatAppend(vals[..n], [vals[n]]);
      assert vals == vals[..n] + [vals[n]] && Concat([vals[n]]) == vals[n] + Concat([]);
    }
  }

  // Field i's value sits at the prefix sum of the lengths before it.
  lemma FieldAt(fs: seq<Field>, vals: seq<Bytes>, i: nat)
    requires |vals| == |fs| && i < |fs| && forall k :: 0 <= k < |fs| ==> |vals[k]| == fs[k].len
    ensures LenOf(fs[..i]) + fs[i].len <= |Concat(vals)| == LenOf(fs)
    ensures Concat(vals)[LenOf(fs[..i])..LenOf(fs[..i]) + fs[i].len] == vals[i]
  {
    hide *;
    PrefixLength(fs[..i], vals[..i]);
    PrefixLength(fs, vals);
    ConcatAppend(vals[..i], vals[i..]);
    ConcatCons(vals[i..]);
    assert vals == vals[..i] + vals[i..] && vals[i..][0] == vals[i];
    var a, b, c := Concat(vals[..i]), vals[i], Concat(vals[i..][1..]);
    Middle(a, b, c);
    assert |a + (b + c)| == |a| + |b| + |c|;
  }

  lemma ConcatCons(ss: seq<Bytes>)
    requires ss != []
    ensures Concat(ss) == ss[0] + Concat(ss[1..])
  {
  }

  lemma Middle(a: Bytes, b: Bytes, c: Bytes)
    ensures (a + (b + c))[|a|..|a| + |b|] == b
  {
  }

  lemma KnownField(fs: seq<Field>, vals: seq<Bytes>, d: FlowData, ies: set<nat>)
    requires Carries(fs, vals, d) && Has(fs, ies) && forall ie :: ie in ies ==> Known(ie)
    ensures var t, o, v := Layout(fs), OffsetOf(fs, ies), FieldOctets(d, fs[LastIndex(fs, ies)].ie, fs[LastIndex(fs, ies)].len);
            |Concat(vals)| == t.recordLen && FieldOk(t, o, |v|) && Concat(vals)[o..o + |v|] == v
  {
    hide LenOf, Concat, LastIndex, FieldOctets, Known;
    FieldAt(fs, vals, LastIndex(fs, ies));
  }

  lemma KnownU16(fs: seq<Field>, vals: seq<Bytes>, d: FlowData, ie: nat, n: nat)
    requires Carries(fs, vals, d) && Has(fs, {ie}) && Known(ie) && n < 0x1_0000 && ie in {L4_SRC_PORT, L4_DST_PORT, ICMP_TYPE} && FieldOctets(d, ie, 2) == U16(n)
    ensures FieldOk(Layout(fs), OffsetOf(fs, {ie}), 2) && |Concat(vals)| == LenOf(fs)
    ensures Be16(Concat(vals), OffsetOf(fs, {ie})) == n
  {
    KnownField(fs, vals, d, {ie});
    hide LastIndex, LenOf, Concat, Be16, U16, Carries;
    var o, s := OffsetOf(fs, {ie}), Concat(vals);
    assert o + 2 <= |s| && s[o..o + 2] == U16(n);
    InThree(s, o, 2);
    ReadU16(s[..o], n, s[o + 2..]);
  }

  lemma InThree(s: Bytes, o: nat, n: nat)
    requires o + n <= |s|
    ensures s == s[..o] + s[o..o + n] + s[o + n..]
  {
  }

  lemma KnownByte(fs: seq<Field>, vals: seq<Bytes>, d: FlowData, ie: nat)
    requires Carries(fs, vals, d) && Has(fs, {ie}) && (ie == IN_PROTOCOL || ie == TCP_FLAGS)
    ensures FieldOk(Layout(fs), OffsetOf(fs, {ie}), 1) && |Concat(vals)| == LenOf(fs)
    ensures Concat(vals)[OffsetOf(fs, {ie})] == if ie == IN_PROTOCOL then d.proto else FlagOctet(fs, d)
  {
    Valid(fs, vals, d);
    KnownField(fs, vals, d, {ie});
    hide LastIndex, LenOf, Concat, Be16, Carries, OffsetOf, FieldOctets, FlagOctet;
    var v := FieldOctets(d, ie, fs[LastIndex(fs, {ie})].len);
    ByteOctet(fs, d, ie);
    FirstOf(Concat(vals), OffsetOf(fs, {ie}), v);
  }

  lemma ByteOctet(fs: seq<Field>, d: FlowData, ie: nat)
    requires DataValid(d) && Has(fs, {ie}) && (ie == IN_PROTOCOL || ie == TCP_FLAGS)
    ensures fs[LastIndex(fs, {ie})].ie == ie
    ensures var v := FieldOctets(d, ie, fs[LastIndex(fs, {ie})].len);
            v != [] && v[0] == if ie == IN_PROTOCOL then d.proto else FlagOctet(fs, d)
  {
    hide LastIndex;
  }

  lemma FirstOf(s: Bytes, o: nat, v: Bytes)
    requires v != [] && o + |v| <= |s| && s[o..o + |v|] == v
    ensures s[o] == v[0]
  {
  }

  lemma Addresses(fs: seq<Field>, vals: seq<Bytes>, d: FlowData)
    requires Carries(fs, vals, d) && Has(fs, SRC) && Has(fs, DST)
    ensures var t, ipsz := Layout(fs), if d.isv6 then 16 else 4;
            && t.isv6 == d.isv6 && |Concat(vals)| == t.recordLen
            && FieldOk(t, t.l3Src, ipsz) && Concat(vals)[t.l3Src..t.l3Src + ipsz] == d.src
            && FieldOk(t, t.l3Dst, ipsz) && Concat(vals)[t.l3Dst..t.l3Dst + ipsz] == d.dst
  {
    hide Carries, LastIndex, LenOf, Concat, FieldOk;
    OneAddress(fs, vals, d, true);
    OneAddress(fs, vals, d, false);
    OneFamily(fs, vals, d);
  }

  lemma OneAddress(fs: seq<Field>, vals: seq<Bytes>, d: FlowData, source: bool)
    requires Carries(fs, vals, d) && Has(fs, if source then SRC else DST)
    ensures var o, v := OffsetOf(fs, if source then SRC else DST), if source then d.src else d.dst;
            && |v| == (if d.isv6 then 16 else 4) && |Concat(vals)| == LenOf(fs)
            && FieldOk(Layout(fs), o, |v|) && Concat(vals)[o..o + |v|] == v
  {
    hide LastIndex, LenOf, Concat, OffsetOf, FieldOk;
    KnownField(fs, vals, d, if source then SRC else DST);
  }

  lemma OneFamily(fs: seq<Field>, vals: seq<Bytes>, d: FlowData)
    requires Carries(fs, vals, d) && Has(fs, SRC)
    ensures Has(fs, V6) <==> d.isv6
  {
    hide LastIndex;
    var i, k := LastIndex(fs, SRC), LastIndex(fs, V6);
    assert AddressType(fs[i].ie, d.isv6);
    if k >= 0 { assert AddressType(fs[k].ie, d.isv6); }
  }

  // Whether the template lets a 16-bit field be read, and what is read.
  lemma PortFact(fs: seq<Field>, vals: seq<Bytes>, d: FlowData, ie: nat, n: nat)
    requires Carries(fs, vals, d) && Known(ie) && n < 0x1_0000 && ie in {L4_SRC_PORT, L4_DST_PORT, ICMP_TYPE} && FieldOctets(d, ie, 2) == U16(n)
    ensures FieldOk(Layout(fs), OffsetOf(fs, {ie}), 2) <==> Has(fs, {ie})
    ensures Has(fs, {ie}) ==> |Concat(vals)| == LenOf(fs) && Be16(Concat(vals), OffsetOf(fs, {ie})) == n
  {
    if Has(fs, {ie}) { KnownU16(fs, vals, d, ie, n); }
  }

  lemma ByteFact(fs: seq<Field>, vals: seq<Bytes>, d: FlowData, ie: nat)
    requires Carries(fs, vals, d) && (ie == IN_PROTOCOL || ie == TCP_FLAGS)
    ensures FieldOk(Layout(fs), OffsetOf(fs, {ie}), 1) <==> Has(fs, {ie})
    ensures Has(fs, {ie}) ==>
              |Concat(vals)| == LenOf(fs)
              && Concat(vals)[OffsetOf(fs, {ie})] == if ie == IN_PROTOCOL then d.proto else FlagOctet(fs, d)
  {
    if Has(fs, {ie}) { KnownByte(fs, vals, d, ie); }
  }

  /** One record, decoded at the template's offsets, gives exactly the flow its exporter meant. */
  lemma RecordRoundTrip(fs: seq<Field>, vals: seq<Bytes>, d: FlowData)
    requires Carries(fs, vals, d) && Has(fs, SRC) && Has(fs, DST) && Has(fs, {IN_PROTOCOL})
    ensures |Concat(vals)| == LenOf(fs)
    ensures DecodeRecord(Layout(fs), Concat(vals)) == Reported(fs, d)
  {
    hide Concat, OffsetOf, Has, LenOf, Be16, TcpFlag, Carries, U16, U32, DecodeRecord, Reported;
    assert DataValid(d) by { Valid(fs, vals, d); }
    Addresses(fs, vals, d);
    ByteFact(fs, vals, d, IN_PROTOCOL);
    ByteFact(fs, vals, d, TCP_FLAGS);
    PortFact(fs, vals, d, L4_SRC_PORT, d.sport);
    PortFact(fs, vals, d, L4_DST_PORT, d.dport);
    PortFact(fs, vals, d, ICMP_TYPE, d.icmp);
    DecodesTo(fs, Layout(fs), Concat(vals), d);
  }

  lemma Valid(fs: seq<Field>, vals: seq<Bytes>, d: FlowData)
    requires Carries(fs, vals, d)
    ensures DataValid(d)
  {
  }

  // What the decoder makes of a record whose fields are those of d wherever the template has them.
  lemma DecodesTo(fs: seq<Field>, t: Template, rec: Bytes, d: FlowData)
    requires |rec| == t.recordLen && t.isv6 == d.isv6 && DataValid(d)
    requires var n := if d.isv6 then 16 else 4;
             && FieldOk(t, t.l3Src, n) && rec[t.l3Src..t.l3Src + n] == d.src
             && FieldOk(t, t.l3Dst, n) && rec[t.l3Dst..t.l3Dst + n] == d.dst
    requires FieldOk(t, t.proto, 1) && rec[t.proto] == d.proto
    requires FieldOk(t, t.l4Src, 2) <==> Has(fs, {L4_SRC_PORT})
    requires Has(fs, {L4_SRC_PORT}) ==> Be16(rec, t.l4Src) == d.sport
    requires FieldOk(t, t.l4Dst, 2) <==> Has(fs, {L4_DST_PORT})
    requires Has(fs, {L4_DST_PORT}) ==> Be16(rec, t.l4Dst) == d.dport
    requires FieldOk(t, t.icmp, 2) <==> Has(fs, {ICMP_TYPE})
    requires Has(fs, {ICMP_TYPE}) ==> Be16(rec, t.icmp) == d.icmp
    requires FieldOk(t, t.tcpFlags, 1) <==> Has(fs, {TCP_FLAGS})
    requires Has(fs, {TCP_FLAGS}) ==> rec[t.tcpFlags] == FlagOctet(fs, d)
    ensures DecodeRecord(t, rec) == Reported(fs, d)
  {
    hide Has, Be16, TcpFlag;
  }

  /** The emitted flag is that of the control bits' low octet, where the TCP flags are, exactly when the
      field has one octet or the high octet happens to say the same. */
  lemma ControlBitsIff(fs: seq<Field>, d: FlowData)
    requires DataValid(d) && d.proto == 6 && Has(fs, {L4_SRC_PORT}) && Has(fs, {L4_DST_PORT}) && Has(fs, {TCP_FLAGS})
    ensures var base := if d.isv6 then 5 else 0;
            var low, high := (d.control % 256) as u8, (d.control / 256 % 256) as u8;
            && Reported(fs, d).Some?
            && (Reported(fs, d).value.flag == TcpFlag(base, low)
                <==> fs[LastIndex(fs, {TCP_FLAGS})].len != 2 || TcpFlag(base, high) == TcpFlag(base, low))
  {
    hide TcpFlag, LastIndex;
  }

  /** So a SYN in a field of two octets is emitted as if no flag were set. */
  lemma WideSynLost(fs: seq<Field>, d: FlowData)
    requires DataValid(d) && d.proto == 6 && d.control == 2
    requires Has(fs, {L4_SRC_PORT}) && Has(fs, {L4_DST_PORT}) && Has(fs, {TCP_FLAGS})
    requires fs[LastIndex(fs, {TCP_FLAGS})].len == 2
    ensures var base := if d.isv6 then 5 else 0;
            Reported(fs, d).Some? && Reported(fs, d).value.flag == base != TcpFlag(base, 2)
  {
    hide LastIndex;
  }

  function Rows(rs: seq<seq<Bytes>>): seq<Bytes> { seq(|rs|, i requires 0 <= i < |rs| => Concat(rs[i])) }

  lemma {:induction false} RecordsRoundTrip(fs: seq<Field>, rs: seq<seq<Bytes>>, ds: seq<FlowData>, pad: Bytes)
    requires |rs| == |ds| && forall i :: 0 <= i < |rs| ==> Carries(fs, rs[i], ds[i])
    requires Has(fs, SRC) && Has(fs, DST) && Has(fs, {IN_PROTOCOL}) && |pad| < LenOf(fs)
    ensures DecodeRecords(Layout(fs), Concat(Rows(rs)) + pad) == ReportedAll(fs, ds)
  {
    hide *;
    if rs == [] {
      NoRows(pad);
      DecodeRest(fs, pad);
    } else {
      assert forall i :: 0 <= i < |rs| - 1 ==> rs[1..][i] == rs[i + 1] && ds[1..][i] == ds[i + 1];
      RecordsRoundTrip(fs, rs[1..], ds[1..], pad);
      RecordRoundTrip(fs, rs[0], ds[0]);
      RowsCons(rs, pad);
      DecodeFirst(fs, Concat(rs[0]), Concat(Rows(rs[1..])) + pad);
      ReportedCons(fs, ds);
    }
  }

  lemma NoRows(pad: Bytes)
    ensures Concat(Rows([])) + pad == pad
  {
  }

  lemma RowsCons(rs: seq<seq<Bytes>>, pad: Bytes)
    requires rs != []
    ensures Concat(Rows(rs)) + pad == Concat(rs[0]) + (Concat(Rows(rs[1..])) + pad)
  {
    assert Rows(rs)[0] == Concat(rs[0]) && Rows(rs)[1..] == Rows(rs[1..]);
    var a := Concat(rs[0]);
    assert Concat(Rows(rs)) == a + Concat(Rows(rs[1..]));
  }

  lemma DecodeRest(fs: seq<Field>, pad: Bytes)
    requires |pad| < LenOf(fs)
    ensures DecodeRecords(Layout(fs), pad) == [] == ReportedAll(fs, [])
  {
    hide LenOf, OffsetOf, Has;
  }

  lemma DecodeFirst(fs: seq<Field>, a: Bytes, b: Bytes)
    requires |a| == LenOf(fs) > 0
    ensures DecodeRecords(Layout(fs), a + b)
         == Emitted(DecodeRecord(Layout(fs), a)) + DecodeRecords(Layout(fs), b)
  {
    hide LenOf, OffsetOf, Has, DecodeRecord;
    assert (a + b)[..|a|] == a && (a + b)[|a|..] == b;
  }

  lemma ReportedCons(fs: seq<Field>, ds: seq<FlowData>)
    requires ds != []
    ensures ReportedAll(fs, ds) == Emitted(Reported(fs, ds[0])) + ReportedAll(fs, ds[1..])
  {
    hide Reported;
  }

  /** Flow export round trip: any fixed-length template with one family's addresses and a protocol
      field, its fields in any order with any others between, then any flows: exactly those flows are
      emitted, in order, and padding shorter than a record adds nothing. */
  lemma FlowExportRoundTrip(cache: Cache, key: nat, id: nat, tid: nat, fs: seq<Field>, ipfix: bool, rest: Bytes,
                            rs: seq<seq<Bytes>>, ds: seq<FlowData>, pad: Bytes)
    requires id < 0x1_0000 && tid < 0x1_0000 && |fs| < 0x1_0000 && AllValid(fs) && FixedLength(fs)
    requires 8 + |EncodeFields(fs, ipfix)| + |rest| < 0x1_0000
    requires Has(fs, SRC) && Has(fs, DST) && Has(fs, {IN_PROTOCOL})
    requires |rs| == |ds| && forall i :: 0 <= i < |rs| ==> Carries(fs, rs[i], ds[i])
    requires |pad| < LenOf(fs) && 4 + |Concat(Rows(rs))| + |pad| < 0x1_0000
    ensures DecodeSet(LearnTemplate(cache, TemplateSetBytes(id, tid, fs, ipfix, rest), key, ipfix),
                      DataSetBytes(tid, Rows(rs), pad), key)
         == ReportedAll(fs, ds)
  {
    hide *;
    TemplateLearnt(cache, key, id, tid, fs, ipfix, rest);
    FixedResult(fs, ipfix);
    RecordsRoundTrip(fs, rs, ds, pad);
    var t := Layout(fs);
    assert Usable(t) by { LayoutUsable(fs, pad); }
    DataSetDecodes(cache[(key, tid) := t], key, tid, Rows(rs), pad);
  }

  lemma FixedResult(fs: seq<Field>, ipfix: bool)
    requires FixedLength(fs)
    ensures ScanOf(fs, ipfix).Result() == Layout(fs)
  {
    ScanIsLayout(fs, ipfix);
    hide ScanOf, OffsetOf, Has;
  }

  lemma LayoutUsable(fs: seq<Field>, pad: Bytes)
    requires Has(fs, SRC) && Has(fs, DST) && Has(fs, {IN_PROTOCOL}) && |pad| < LenOf(fs)
    ensures Usable(Layout(fs))
  {
    hide LenOf;
  }

  lemma DataSetDecodes(cache: Cache, key: nat, tid: nat, records: seq<Bytes>, pad: Bytes)
    requires tid < 0x1_0000 && 4 + |Concat(records)| + |pad| < 0x1_0000
    requires (key, tid) in cache && Usable(cache[(key, tid)])
    ensures DecodeSet(cache, DataSetBytes(tid, records, pad), key)
         == DecodeRecords(cache[(key, tid)], Concat(records) + pad)
  {
    hide DecodeRecords, Concat, U16, Be16;
    var body := Concat(records) + pad;
    var s := DataSetBytes(tid, records, pad);
    ReadU16([], tid, U16(4 + |body|) + body);
    assert s == [] + U16(tid) + (U16(4 + |body|) + body);
    assert s[SET_HEADER..] == body;
  }
}
