/** NetFlow v9 / IPFIX template and data sets: the fixed-offset field map and the record loop. */
module FlowRecords {
  import opened Wrappers
  import opened Octets
  import Sequences

  const IN_PROTOCOL := 4
  const TCP_FLAGS := 6
  const L4_SRC_PORT := 7
  const IPV4_SRC_ADDR := 8
  const L4_DST_PORT := 11
  const IPV4_DST_ADDR := 12
  const IPV6_SRC_ADDR := 27
  const IPV6_DST_ADDR := 28
  const ICMP_TYPE := 32

  const ABSENT: int := -1
  const VARLEN := 0xffff
  const SET_HEADER := 4

  // Where each field of interest sits in a record; recordLen 0 marks an unusable template.
  datatype Template = Template(l3Src: int, l3Dst: int, l4Src: int, l4Dst: int, isv6: bool,
                               proto: int, icmp: int, tcpFlags: int, recordLen: nat)

  const EMPTY := Template(ABSENT, ABSENT, ABSENT, ABSENT, false, ABSENT, ABSENT, ABSENT, 0)

  // One decoded flow: what is printed into a PACKTER record.
  datatype Flow = Flow(isv6: bool, src: Bytes, dst: Bytes, sport: nat, dport: nat, flag: nat, proto: u8)

  type Key = (nat, nat)
  type Cache = map<Key, Template>

  // ---- template sets ------------------------------------------------------------

  function Assign(t: Template, ie: nat, off: nat): Template {
    if ie == IPV4_SRC_ADDR then t.(l3Src := off)
    else if ie == IPV4_DST_ADDR then t.(l3Dst := off)
    else if ie == IPV6_SRC_ADDR then t.(l3Src := off, isv6 := true)
    else if ie == IPV6_DST_ADDR then t.(l3Dst := off, isv6 := true)
    else if ie == L4_SRC_PORT then t.(l4Src := off)
    else if ie == L4_DST_PORT then t.(l4Dst := off)
    else if ie == ICMP_TYPE then t.(icmp := off)
    else if ie == IN_PROTOCOL then t.(proto := off)
    else if ie == TCP_FLAGS then t.(tcpFlags := off)
    else t
  }

  // The scan of field specifiers so far: offsets, bytes per record, a variable-length field seen.
  datatype Scan = Scan(t: Template, len: nat, variable: bool) {
    function Take(ie: nat, flen: nat, enterprise: bool): Scan {
      Scan(if enterprise then t else Assign(t, ie, len),
           if flen == VARLEN then len else len + flen,
           variable || flen == VARLEN)
    }

    function Result(): Template { t.(recordLen := if variable then 0 else len) }
  }

  function ScanFields(buf: Bytes, off: nat, left: nat, s: Scan, ipfix: bool): Scan
    requires off <= |buf|
    decreases left
  {
    if left == 0 || |buf| - off < 4 then s
    else
      var ie, flen := Be16(buf, off), Be16(buf, off + 2);
      if ipfix && ie >= 0x8000 then
        if |buf| - (off + 4) < 4 then s
        else ScanFields(buf, off + 8, left - 1, s.Take(ie, flen, true), ipfix)
      else ScanFields(buf, off + 4, left - 1, s.Take(ie, flen, false), ipfix)
  }

  function LearnTemplate(templates: Cache, fset: Bytes, keyId: nat, ipfix: bool): Cache {
    if |fset| < 8 then templates
    else
      templates[(keyId, Be16(fset, 4)) :=
        ScanFields(fset, 8, Be16(fset, 6), Scan(EMPTY, 0, false), ipfix).Result()]
  }

  // ---- data sets ----------------------------------------------------------------

  predicate FieldOk(t: Template, off: int, size: nat) {
    off != ABSENT && 0 <= off && off + size <= t.recordLen
  }

  function TcpFlag(base: nat, bits: u8): nat {
    if bits / 2 % 2 == 1 then base + 1
    else if bits % 2 == 1 || bits / 4 % 2 == 1 then base + 2
    else base
  }

  predicate Usable(t: Template) {
    t.l3Src != ABSENT && t.l3Dst != ABSENT && t.proto != ABSENT && t.recordLen > 0
  }

  // Every index below is into rec, so no field read leaves its record.
  function DecodeRecord(t: Template, rec: Bytes): Option<Flow>
    requires |rec| == t.recordLen
  {
    var ipsz := if t.isv6 then 16 else 4;
    if !FieldOk(t, t.l3Src, ipsz) || !FieldOk(t, t.l3Dst, ipsz) || !FieldOk(t, t.proto, 1) then None
    else
      var src, dst := rec[t.l3Src..t.l3Src + ipsz], rec[t.l3Dst..t.l3Dst + ipsz];
      var proto := rec[t.proto];
      if proto == 6 || proto == 17 then
        if !FieldOk(t, t.l4Src, 2) || !FieldOk(t, t.l4Dst, 2) then None
        else
          var flag := if proto == 17 then (if t.isv6 then 8 else 3)
                      else
                        var base := if t.isv6 then 5 else 0;
                        if FieldOk(t, t.tcpFlags, 1) then TcpFlag(base, rec[t.tcpFlags]) else base;
          Some(Flow(t.isv6, src, dst, Be16(rec, t.l4Src), Be16(rec, t.l4Dst), flag, proto))
      else if proto == 1 || proto == 58 then
        if !FieldOk(t, t.icmp, 2) then None
        else
          var tc := Be16(rec, t.icmp);
          Some(Flow(t.isv6, src, dst, tc, tc, if proto == 58 then 9 else 4, proto))
      else None
  }

  function Emitted(f: Option<Flow>): seq<Flow> { if f.Some? then [f.value] else [] }

  // The flows of the whole records in data; a shorter rest is padding.
  function DecodeRecords(t: Template, data: Bytes): seq<Flow>
    requires t.recordLen > 0
    decreases |data|
  {
    if |data| < t.recordLen then []
    else Emitted(DecodeRecord(t, data[..t.recordLen])) + DecodeRecords(t, data[t.recordLen..])
  }

  function DecodeSet(templates: Cache, fset: Bytes, keyId: nat): seq<Flow> {
    if |fset| < SET_HEADER then []
    else
      var key := (keyId, Be16(fset, 0));
      if key in templates && Usable(templates[key]) then DecodeRecords(templates[key], fset[SET_HEADER..])
      else []
  }

  // ---- the program: cache and output updated in place --------------------------------

  class Collector {
    var templates: Cache
    var out: seq<Flow>

    constructor ()
      ensures templates == map[] && out == []
    {
      templates, out := map[], [];
    }

    // buf starts at the set header; setlen is the set's length.
    method TemplateSet(buf: Bytes, setlen: nat, keyId: nat, ipfix: bool)
      requires setlen <= |buf|
      modifies this`templates
      ensures templates == LearnTemplate(old(templates), buf[..setlen], keyId, ipfix)
    {
      ghost var view := buf[..setlen];
      var off := SET_HEADER;
      if setlen - off < SET_HEADER {
        return;
      }
      var templateId := Be16(buf, off);
      var fieldcount := Be16(buf, off + 2);
      off := off + SET_HEADER;
      var np := EMPTY;
      var fieldlen := 0;
      var variable := false;
      var i := 0;
      PrefixRead(buf, setlen, 4);
      PrefixRead(buf, setlen, 6);
      ghost var whole := ScanFields(view, 8, fieldcount, Scan(EMPTY, 0, false), ipfix);
      assert LearnTemplate(templates, view, keyId, ipfix) == templates[(keyId, templateId) := whole.Result()];
      hide ScanFields, LearnTemplate, Be16, Assign;
      while i < fieldcount
        invariant 0 <= i <= fieldcount && 8 <= off <= setlen && templates == old(templates)
        invariant ScanFields(view, off, fieldcount - i, Scan(np, fieldlen, variable), ipfix) == whole
      {
        ghost var s := Scan(np, fieldlen, variable);
        if setlen - off < 4 {
          ScanEnds(view, off, fieldcount - i, s, ipfix);
          break;
        }
        var ie := Be16(buf, off);
        var flen := Be16(buf, off + 2);
        PrefixRead(buf, setlen, off);
        PrefixRead(buf, setlen, off + 2);
        ScanStep(view, off, fieldcount - i, s, ipfix);
        off := off + 4;
        i := i + 1;
        if ipfix && ie >= 0x8000 {
          if setlen - off < 4 {
            break;
          }
          off := off + 4;
          if flen == VARLEN {
            variable := true;
          } else {
            fieldlen := fieldlen + flen;
          }
          continue;
        }
        if flen == VARLEN {
          variable := true;
        }
        np := Assign(np, ie, fieldlen);
        if flen != VARLEN {
          fieldlen := fieldlen + flen;
        }
      }
      if i == fieldcount { ScanEnds(view, off, 0, Scan(np, fieldlen, variable), ipfix); }
      assert whole == Scan(np, fieldlen, variable);
      templates := templates[(keyId, templateId) := np.(recordLen := if variable then 0 else fieldlen)];
    }

    method FlowSet(buf: Bytes, setlen: nat, keyId: nat)
      requires setlen <= |buf|
      modifies this`out
      ensures out == old(out) + DecodeSet(templates, buf[..setlen], keyId)
    {
      hide DecodeRecord;
      var off := SET_HEADER;
      if setlen < SET_HEADER {
        return;
      }
      var key := (keyId, Be16(buf, 0));
      if key !in templates {
        return;
      }
      var np := templates[key];
      if np.l3Src == ABSENT || np.l3Dst == ABSENT || np.proto == ABSENT || np.recordLen <= 0 {
        return;
      }
      ghost var view := buf[..setlen];
      PrefixRead(buf, setlen, 0);
      assert DecodeSet(templates, view, keyId) == DecodeRecords(np, view[SET_HEADER..]);
      hide DecodeRecords, DecodeSet, Be16, Emitted;
      while off + np.recordLen <= setlen
        invariant SET_HEADER <= off <= setlen
        invariant out + DecodeRecords(np, view[off..]) == old(out) + DecodeRecords(np, view[SET_HEADER..])
      {
        var rec := buf[off..off + np.recordLen];
        NextRecord(np, buf, setlen, off);
        off := off + np.recordLen;
        var flow := DecodeRecord(np, rec);
        Sequences.Associate(out, Emitted(flow), DecodeRecords(np, view[off..]));
        out := out + Emitted(flow);
      }
      NoRecord(np, view[off..]);
      assert out + [] == out;
    }
  }

  lemma ScanEnds(buf: Bytes, off: nat, left: nat, s: Scan, ipfix: bool)
    requires off <= |buf| && (left == 0 || |buf| - off < 4)
    ensures ScanFields(buf, off, left, s, ipfix) == s
  {
  }

  // One specifier; an enterprise field whose number is cut off ends the scan.
  lemma ScanStep(buf: Bytes, off: nat, left: nat, s: Scan, ipfix: bool)
    requires left > 0 && off + 4 <= |buf|
    ensures var ie, flen := Be16(buf, off), Be16(buf, off + 2);
            ScanFields(buf, off, left, s, ipfix)
            == if !(ipfix && ie >= 0x8000) then ScanFields(buf, off + 4, left - 1, s.Take(ie, flen, false), ipfix)
               else if |buf| - (off + 4) < 4 then s
               else ScanFields(buf, off + 8, left - 1, s.Take(ie, flen, true), ipfix)
  {
    hide Scan.Take, Be16;
  }

  lemma PrefixRead(buf: Bytes, setlen: nat, off: nat)
    requires off + 2 <= setlen <= |buf|
    ensures Be16(buf[..setlen], off) == Be16(buf, off)
  {
  }

  // The record at off, and the records behind it.
  lemma NextRecord(t: Template, buf: Bytes, setlen: nat, off: nat)
    requires t.recordLen > 0 && off + t.recordLen <= setlen <= |buf|
    ensures DecodeRecords(t, buf[..setlen][off..])
         == Emitted(DecodeRecord(t, buf[off..off + t.recordLen])) + DecodeRecords(t, buf[..setlen][off + t.recordLen..])
  {
    hide DecodeRecord;
    var data := buf[..setlen][off..];
    assert data[..t.recordLen] == buf[off..off + t.recordLen];
    assert data[t.recordLen..] == buf[..setlen][off + t.recordLen..];
  }

  lemma NoRecord(t: Template, data: Bytes)
    requires |data| < t.recordLen
    ensures DecodeRecords(t, data) == []
  {
  }
}
