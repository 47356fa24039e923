/** Whole export messages: what an exporter puts in a NetFlow v9 or IPFIX message is what the reader of
    that message emits, template and data sets together or in messages of their own. */
module FlowMessages {
  import opened Wrappers
  import opened Octets
  import opened FlowRecords
  import opened FlowRoundTrip
  import opened FlowReaders
  import Sequences

  // One data set: its records, the flows they carry, and its padding.
  datatype Batch = Batch(records: seq<seq<Bytes>>, flows: seq<FlowData>, pad: Bytes)

  ghost predicate BatchValid(fs: seq<Field>, b: Batch) {
    && |b.records| == |b.flows| && (forall i :: 0 <= i < |b.records| ==> Carries(fs, b.records[i], b.flows[i]))
    && |b.pad| < LenOf(fs) && 4 + |Concat(Rows(b.records))| + |b.pad| < 0x1_0000
  }

  ghost predicate AllBatches(fs: seq<Field>, bs: seq<Batch>) { forall i :: 0 <= i < |bs| ==> BatchValid(fs, bs[i]) }

  ghost function DataSets(tid: nat, fs: seq<Field>, bs: seq<Batch>): seq<Bytes>
    requires tid < 0x1_0000 && AllBatches(fs, bs)
  {
    if bs == [] then [] else [DataSetBytes(tid, Rows(bs[0].records), bs[0].pad)] + DataSets(tid, fs, bs[1..])
  }

  function FlowsOf(fs: seq<Field>, bs: seq<Batch>): seq<Flow> {
    if bs == [] then [] else ReportedAll(fs, bs[0].flows) + FlowsOf(fs, bs[1..])
  }

  // A template the decoder can use, with one family's addresses and a protocol field.
  predicate Exportable(tid: nat, fs: seq<Field>, ipfix: bool, rest: Bytes) {
    && 256 <= tid < 0x1_0000 && |fs| < 0x1_0000 && AllValid(fs) && FixedLength(fs)
    && 8 + |EncodeFields(fs, ipfix)| + |rest| < 0x1_0000
    && Has(fs, SRC) && Has(fs, DST) && Has(fs, {IN_PROTOCOL}) && LenOf(fs) > 0
  }

  lemma SetHeads(id: nat, len: nat, rest: Bytes)
    requires id < 0x1_0000 && len < 0x1_0000 && len == 4 + |rest|
    ensures var s := U16(id) + U16(len) + rest; |s| == len && Be16(s, 0) == id && Be16(s, 2) == len
  {
    hide U16, Be16;
    ReadU16([], id, U16(len) + rest);
    ReadU16(U16(id), len, rest);
    assert U16(id) + U16(len) + rest == [] + U16(id) + (U16(len) + rest);
  }

  lemma DataHead(tid: nat, records: seq<Bytes>, pad: Bytes)
    requires tid < 0x1_0000 && 4 + |Concat(records)| + |pad| < 0x1_0000
    ensures var s := DataSetBytes(tid, records, pad); |s| >= 4 && Be16(s, 0) == tid && Be16(s, 2) == |s|
  {
    hide U16, Be16, Concat;
    SetHeads(tid, 4 + |Concat(records)| + |pad|, Concat(records) + pad);
  }

  lemma TemplateHead(id: nat, tid: nat, fs: seq<Field>, ipfix: bool, rest: Bytes)
    requires id < 0x1_0000 && Exportable(tid, fs, ipfix, rest)
    ensures var s := TemplateSetBytes(id, tid, fs, ipfix, rest); |s| >= 4 && Be16(s, 0) == id && Be16(s, 2) == |s|
  {
    hide U16, Be16, EncodeFields, AllValid, Has, LenOf, FixedLength;
    var n, body := 8 + |EncodeFields(fs, ipfix)| + |rest|, EncodeFields(fs, ipfix) + rest;
    SetHeads(id, n, U16(tid) + U16(|fs|) + body);
    assert TemplateSetBytes(id, tid, fs, ipfix, rest) == U16(id) + U16(n) + (U16(tid) + U16(|fs|) + body);
  }

  lemma OneBatch(cache: Cache, key: nat, tid: nat, fs: seq<Field>, b: Batch)
    requires tid < 0x1_0000 && BatchValid(fs, b) && Has(fs, SRC) && Has(fs, DST) && Has(fs, {IN_PROTOCOL})
    requires (key, tid) in cache && cache[(key, tid)] == Layout(fs)
    ensures DecodeSet(cache, DataSetBytes(tid, Rows(b.records), b.pad), key) == ReportedAll(fs, b.flows)
  {
    hide DecodeSet, DataSetBytes, Rows, Carries, Concat, LenOf, Has, Layout, ReportedAll, DecodeRecords, Usable;
    LayoutUsable(fs, b.pad);
    DataSetDecodes(cache, key, tid, Rows(b.records), b.pad);
    RecordsRoundTrip(fs, b.records, b.flows, b.pad);
  }

  lemma ApplyData(st: State, key: nat, tid: nat, fs: seq<Field>, b: Batch, ipfix: bool)
    requires 256 <= tid < 0x1_0000 && BatchValid(fs, b) && Has(fs, SRC) && Has(fs, DST) && Has(fs, {IN_PROTOCOL})
    requires (key, tid) in st.templates && st.templates[(key, tid)] == Layout(fs)
    ensures var s := DataSetBytes(tid, Rows(b.records), b.pad);
            && |s| >= SET_HEADER && Be16(s, 2) == |s|
            && Apply(st, s, key, ipfix) == st.(out := st.out + ReportedAll(fs, b.flows))
  {
    OneBatch(st.templates, key, tid, fs, b);
    DataHead(tid, Rows(b.records), b.pad);
    hide DecodeSet, DataSetBytes, Rows, Carries, Concat, LenOf, Has, Layout, ReportedAll, LearnTemplate, Be16;
  }

  lemma ApplyCons(st: State, s: Bytes, sets: seq<Bytes>, key: nat, ipfix: bool)
    requires |s| >= SET_HEADER && Be16(s, 2) == |s| && WellFormed(sets)
    ensures WellFormed([s] + sets)
    ensures ApplyAll(st, [s] + sets, key, ipfix) == ApplyAll(Apply(st, s, key, ipfix), sets, key, ipfix)
  {
    hide Be16, Apply;
    assert ([s] + sets)[1..] == sets;
  }

  lemma {:induction false} ApplyDataSets(st: State, key: nat, tid: nat, fs: seq<Field>, bs: seq<Batch>, ipfix: bool)
    requires 256 <= tid < 0x1_0000 && AllBatches(fs, bs) && Has(fs, SRC) && Has(fs, DST) && Has(fs, {IN_PROTOCOL})
    requires (key, tid) in st.templates && st.templates[(key, tid)] == Layout(fs)
    ensures WellFormed(DataSets(tid, fs, bs))
    ensures ApplyAll(st, DataSets(tid, fs, bs), key, ipfix) == st.(out := st.out + FlowsOf(fs, bs))
    decreases |bs|
  {
    hide BatchValid, Has, Layout, Apply, DataSetBytes, ReportedAll, Be16, Rows;
    if bs == [] {
      assert st.out + [] == st.out;
    } else {
      var s := DataSetBytes(tid, Rows(bs[0].records), bs[0].pad) by { assert BatchValid(fs, bs[0]); BatchFits(fs, bs[0]); }
      ApplyData(st, key, tid, fs, bs[0], ipfix);
      var next := st.(out := st.out + ReportedAll(fs, bs[0].flows));
      ApplyDataSets(next, key, tid, fs, bs[1..], ipfix);
      ApplyCons(st, s, DataSets(tid, fs, bs[1..]), key, ipfix);
      Sequences.Associate(st.out, ReportedAll(fs, bs[0].flows), FlowsOf(fs, bs[1..]));
    }
  }

  lemma BatchFits(fs: seq<Field>, b: Batch)
    requires BatchValid(fs, b)
    ensures 4 + |Concat(Rows(b.records))| + |b.pad| < 0x1_0000
  {
    hide Carries;
  }

  // ---- whole messages ---------------------------------------------------------------------------

  // What a reader makes of sets followed by octets that start no set.
  lemma BodyWalk(st: State, sets: seq<Bytes>, junk: Bytes, key: nat, ipfix: bool)
    requires WellFormed(sets) && !StartsSet(junk)
    ensures Walk(st, Concat(sets) + junk, key, ipfix) == ApplyAll(st, sets, key, ipfix)
  {
    LongestPrefix(sets, junk);
    assert SplitSets(junk) == [] && sets + [] == sets;
    hide SplitSets, ApplyAll, StartsSet, Concat;
  }

  // A template set and the data sets described by it.
  ghost function Export(tid: nat, fs: seq<Field>, ipfix: bool, rest: Bytes, bs: seq<Batch>, junk: Bytes): Bytes
    requires Exportable(tid, fs, ipfix, rest) && AllBatches(fs, bs)
  {
    Concat([TemplateSetBytes(if ipfix then 2 else 0, tid, fs, ipfix, rest)] + DataSets(tid, fs, bs)) + junk
  }

  lemma ApplyTemplate(st: State, key: nat, tid: nat, fs: seq<Field>, ipfix: bool, rest: Bytes)
    requires Exportable(tid, fs, ipfix, rest)
    ensures var s := TemplateSetBytes(if ipfix then 2 else 0, tid, fs, ipfix, rest);
            && |s| >= SET_HEADER && Be16(s, 2) == |s|
            && Apply(st, s, key, ipfix) == st.(templates := st.templates[(key, tid) := Layout(fs)])
  {
    var id := if ipfix then 2 else 0;
    TemplateHead(id, tid, fs, ipfix, rest);
    TemplateLearnt(st.templates, key, id, tid, fs, ipfix, rest);
    FixedResult(fs, ipfix);
    hide TemplateSetBytes, LearnTemplate, ScanOf, Layout, Be16, DecodeSet, Has, LenOf, EncodeFields;
  }

  lemma ExportWalk(st: State, key: nat, tid: nat, fs: seq<Field>, ipfix: bool, rest: Bytes, bs: seq<Batch>, junk: Bytes)
    requires Exportable(tid, fs, ipfix, rest) && AllBatches(fs, bs) && !StartsSet(junk)
    ensures Walk(st, Export(tid, fs, ipfix, rest, bs, junk), key, ipfix)
         == State(st.templates[(key, tid) := Layout(fs)], st.out + FlowsOf(fs, bs))
  {
    var t := TemplateSetBytes(if ipfix then 2 else 0, tid, fs, ipfix, rest);
    var learnt := st.(templates := st.templates[(key, tid) := Layout(fs)]);
    ApplyTemplate(st, key, tid, fs, ipfix, rest);
    ApplyDataSets(learnt, key, tid, fs, bs, ipfix);
    hide TemplateSetBytes, Layout, Be16, Apply, ApplyAll, DataSets, Walk, AllBatches, StartsSet, Has, LenOf, Concat, FlowsOf;
    ApplyCons(st, t, DataSets(tid, fs, bs), key, ipfix);
    BodyWalk(st, [t] + DataSets(tid, fs, bs), junk, key, ipfix);
  }

  /** A v9 message with a fixed-length template and any data sets under it emits exactly the exported
      flows, in order, and leaves the template in the cache. */
  lemma V9Export(st: State, counter: nat, words: Bytes, key: nat, tid: nat, fs: seq<Field>, rest: Bytes,
                 bs: seq<Batch>, junk: Bytes)
    requires counter < 0x1_0000 && |words| == 12 && key < 0x1_0000_0000
    requires Exportable(tid, fs, false, rest) && AllBatches(fs, bs) && !StartsSet(junk)
    ensures V9(st, V9Message(counter, words, key, Export(tid, fs, false, rest, bs, junk)))
         == State(st.templates[(key, tid) := Layout(fs)], st.out + FlowsOf(fs, bs))
  {
    hide *;
    V9Parts(st, counter, words, key, Export(tid, fs, false, rest, bs, junk));
    ExportWalk(st, key, tid, fs, false, rest, bs, junk);
  }

  /** So does an IPFIX message, whose declared length is absent or covers its sets. */
  lemma IpfixExport(st: State, declared: nat, words: Bytes, key: nat, tid: nat, fs: seq<Field>, rest: Bytes,
                    bs: seq<Batch>, junk: Bytes)
    requires declared < 0x1_0000 && |words| == 8 && key < 0x1_0000_0000
    requires Exportable(tid, fs, true, rest) && AllBatches(fs, bs) && !StartsSet(junk)
    requires declared < IPFIX_HEADER || declared >= IPFIX_HEADER + |Export(tid, fs, true, rest, bs, junk)|
    ensures Ipfix(st, IpfixMessage(declared, words, key, Export(tid, fs, true, rest, bs, junk)))
         == State(st.templates[(key, tid) := Layout(fs)], st.out + FlowsOf(fs, bs))
  {
    hide *;
    IpfixParts(st, declared, words, key, Export(tid, fs, true, rest, bs, junk));
    ExportWalk(st, key, tid, fs, true, rest, bs, junk);
  }

  /** Data sets in a later message are decoded by the template an earlier one left. */
  lemma LaterData(st: State, counter: nat, words: Bytes, key: nat, tid: nat, fs: seq<Field>, bs: seq<Batch>, junk: Bytes)
    requires counter < 0x1_0000 && |words| == 12 && key < 0x1_0000_0000 && 256 <= tid < 0x1_0000
    requires AllBatches(fs, bs) && !StartsSet(junk) && Has(fs, SRC) && Has(fs, DST) && Has(fs, {IN_PROTOCOL})
    requires (key, tid) in st.templates && st.templates[(key, tid)] == Layout(fs)
    ensures V9(st, V9Message(counter, words, key, Concat(DataSets(tid, fs, bs)) + junk))
         == st.(out := st.out + FlowsOf(fs, bs))
  {
    hide *;
    var sets := DataSets(tid, fs, bs);
    V9Parts(st, counter, words, key, Concat(sets) + junk);
    ApplyDataSets(st, key, tid, fs, bs, false);
    BodyWalk(st, sets, junk, key, false);
  }
}
