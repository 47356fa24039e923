/** From a captured frame to the broker's event: the capture chain's record, printed by the agent and
    parsed by the broker, is an event with the frame's addresses, ports and flag. */
module FrameToEvent {
  import opened Wrappers
  import opened Octets
  import Text
  import FlowRecords
  import Capture
  import CaptureLaws
  import Mesg
  import P = Parse
  import S = Send

  // How addresses are written, what is put in descriptions, and where the broker's reader places them.
  datatype Printing = Printing(ctx: Mesg.Context, ntop: (bool, Bytes) -> string, place: (bool, Bytes) -> real, desc: string)

  ghost predicate Readable(rd: P.Reader, pr: Printing, v6: bool, a: Bytes) {
    P.AddressToken(rd, pr.ntop(v6, a), pr.place(v6, a))
  }

  // The message for a packet event or an exported flow.
  function Message(pr: Printing, r: Capture.Record): string {
    match r
    case Ball(v6, src, dst, data1, data2, flag) =>
      Mesg.Printed(pr.ctx, pr.ntop(v6, src), pr.ntop(v6, dst), data1, data2, flag, pr.desc)
    case Exported(f) =>
      Mesg.Printed(pr.ctx, pr.ntop(f.isv6, f.src), pr.ntop(f.isv6, f.dst), f.sport, f.dport, f.flag, pr.desc)
  }

  function Event(pr: Printing, v6: bool, src: Bytes, dst: Bytes, data1: nat, data2: nat, flag: nat): P.Parsed {
    P.Fly(P.FlyEvent(P.KIND_LAY, pr.place(v6, src), data1 as real / 65536.0, pr.place(v6, dst), data2 as real / 65536.0,
                     flag, 1, 0, Text.TrimEndOf(Mesg.Description(pr.ctx, pr.desc), '\r')))
  }

  // The record is printed without coordinates, on one line, and within its buffer.
  ghost predicate Fits(rd: P.Reader, pr: Printing, v6: bool, src: Bytes, dst: Bytes, data1: nat, data2: nat, flag: nat) {
    && pr.ctx.geo.None? && '\n' !in Mesg.Description(pr.ctx, pr.desc) && Readable(rd, pr, v6, src) && Readable(rd, pr, v6, dst)
    && 0 <= flag + pr.ctx.flagbase < 0x8000_0000
    && Text.ByteLen(S.HEADER + Mesg.RecordLine(pr.ctx, pr.ntop(v6, src), pr.ntop(v6, dst), data1, data2, flag, pr.desc) + "\n")
       <= Mesg.ROOM
  }

  lemma BallBounds(u: Capture.Upper)
    ensures forall b :: b in Capture.Balls(u) ==> b.Ball? && b.data1 < 65536 && b.data2 < 65536 && b.flag <= 9
  {
    hide Be16;
  }

  lemma RecordToEvent(rd: P.Reader, pr: Printing, v6: bool, src: Bytes, dst: Bytes, data1: nat, data2: nat, flag: nat)
    requires data1 < 65536 && data2 < 65536 && flag <= 9 && Fits(rd, pr, v6, src, dst, data1, data2, flag)
    ensures P.ParseText(rd, Mesg.Printed(pr.ctx, pr.ntop(v6, src), pr.ntop(v6, dst), data1, data2, flag, pr.desc))
         == [Event(pr, v6, src, dst, data1, data2, flag + pr.ctx.flagbase)]
  {
    hide P.ParseText, Mesg.Printed, Mesg.Description, Text.ByteLen, P.AddressToken, Mesg.RecordLine, Text.TrimEndOf;
    Mesg.PrintedMeans(rd, pr.ctx, pr.ntop(v6, src), pr.ntop(v6, dst), data1, data2, flag, pr.desc,
                      pr.place(v6, src), pr.place(v6, dst));
  }

  lemma MessageIs(pr: Printing, r: Capture.Record)
    ensures r.Ball? ==>
              Message(pr, r) == Mesg.Printed(pr.ctx, pr.ntop(r.v6, r.src), pr.ntop(r.v6, r.dst), r.data1, r.data2, r.flag, pr.desc)
    ensures r.Exported? ==>
              var f := r.flow;
              Message(pr, r) == Mesg.Printed(pr.ctx, pr.ntop(f.isv6, f.src), pr.ntop(f.isv6, f.dst), f.sport, f.dport, f.flag, pr.desc)
  {
    hide Mesg.Printed;
  }

  /** Every frame that gives a packet event gives the broker exactly one event with its fields. */
  lemma CapturedFrame(rd: P.Reader, pr: Printing, frame: Bytes, b: Capture.Record)
    requires Capture.Balls(Capture.ParseEther(frame)) == [b] && b.Ball?
    requires Fits(rd, pr, b.v6, b.src, b.dst, b.data1, b.data2, b.flag)
    ensures P.ParseText(rd, Message(pr, b)) == [Event(pr, b.v6, b.src, b.dst, b.data1, b.data2, b.flag + pr.ctx.flagbase)]
  {
    hide *;
    BallBounds(Capture.ParseEther(frame));
    assert b in Capture.Balls(Capture.ParseEther(frame));
    RecordToEvent(rd, pr, b.v6, b.src, b.dst, b.data1, b.data2, b.flag);
    MessageIs(pr, b);
  }

  /** So does every flow decoded from a flow export. */
  lemma DecodedFlow(rd: P.Reader, pr: Printing, t: FlowRecords.Template, rec: Bytes)
    requires |rec| == t.recordLen && FlowRecords.DecodeRecord(t, rec).Some?
    requires var f := FlowRecords.DecodeRecord(t, rec).value;
             Fits(rd, pr, f.isv6, f.src, f.dst, f.sport, f.dport, f.flag)
    ensures var f := FlowRecords.DecodeRecord(t, rec).value;
            P.ParseText(rd, Message(pr, Capture.Exported(f)))
            == [Event(pr, f.isv6, f.src, f.dst, f.sport, f.dport, f.flag + pr.ctx.flagbase)]
  {
    hide *;
    var f := FlowRecords.DecodeRecord(t, rec).value;
    DecodedBounds(t, rec);
    RecordToEvent(rd, pr, f.isv6, f.src, f.dst, f.sport, f.dport, f.flag);
    MessageIs(pr, Capture.Exported(f));
  }

  lemma DecodedBounds(t: FlowRecords.Template, rec: Bytes)
    requires |rec| == t.recordLen && FlowRecords.DecodeRecord(t, rec).Some?
    ensures var f := FlowRecords.DecodeRecord(t, rec).value; f.sport < 65536 && f.dport < 65536 && f.flag <= 9
  {
    hide Be16;
  }

  /** A UDP datagram in an IPv4 frame, tagged or not and with any header options, becomes the event with
      exactly its two addresses and ports and the UDP flag. */
  lemma UdpFrameToEvent(rd: P.Reader, pr: Printing, addresses: Bytes, tag: Bytes, words: nat, before: Bytes, sum: Bytes,
                        src: Bytes, dst: Bytes, options: Bytes, sport: nat, dport: nat, check: Bytes, payload: Bytes)
    requires |addresses| == 12 && (|tag| == 0 || |tag| == 2)
    requires 5 <= words < 16 && |before| == 8 && |sum| == 2 && |src| == 4 && |dst| == 4 && |options| == 4 * words - 20
    requires sport < 0x1_0000 && dport < 0x1_0000 && |check| == 4 && Fits(rd, pr, false, src, dst, sport, dport, 3)
    ensures var seg := U16(sport) + U16(dport) + (check + payload);
            var frame := CaptureLaws.Ether(addresses, tag, 0x0800,
                                           CaptureLaws.Packet4(words, before, 17, sum, src, dst, options, seg));
            var b := Capture.Ball(false, src, dst, sport, dport, 3);
            && Capture.Balls(Capture.ParseEther(frame)) == [b]
            && P.ParseText(rd, Message(pr, b)) == [Event(pr, false, src, dst, sport, dport, 3 + pr.ctx.flagbase)]
  {
    hide *;
    var seg := U16(sport) + U16(dport) + (check + payload);
    CaptureLaws.Frame4RoundTrip(addresses, tag, words, before, 17, sum, src, dst, options, seg);
    CaptureLaws.UdpEvent(false, src, dst, sport, dport, check, payload);
    CapturedFrame(rd, pr, CaptureLaws.Ether(addresses, tag, 0x0800,
                                           CaptureLaws.Packet4(words, before, 17, sum, src, dst, options, seg)),
                  Capture.Ball(false, src, dst, sport, dport, 3));
  }
}
