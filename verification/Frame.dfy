/** The binary fly frame: the broker's encoder, the viewer's decoder, and the backfill chunks. */
module Frame {
  import opened Octets
  import opened Ring
  import Sequences

  const BACKFILL_CHUNK := 4096
  const TWO_TO_THE_31 := 0x8000_0000
  const TWO_TO_THE_32 := 0x1_0000_0000

  // A 32-bit float, kept as its four wire octets.
  type F32 = b: Bytes | |b| == 4 witness [0, 0, 0, 0]

  datatype Event = Event(kind: u8, sx: F32, sy: F32, dx: F32, dy: F32, flag: nat,
                         srcBoard: u8, dstBoard: u8, desc: Bytes)

  type Stored = Entry<Event>

  // What the viewer's decoder hands on for one event.
  datatype Shown = Shown(age: int, sx: F32, sy: F32, dx: F32, dy: F32, flag: nat,
                         kind: u8, srcBoard: u8, dstBoard: u8, desc: Bytes)

  function LeU16(n: nat): (s: Bytes)
    requires n < 0x1_0000
    ensures |s| == 2
  {
    [(n % 256) as u8, (n / 256) as u8]
  }

  function LeU32(n: nat): (s: Bytes)
    requires n < TWO_TO_THE_32
    ensures |s| == 4
  {
    LeU16(n % 0x1_0000) + LeU16(n / 0x1_0000)
  }

  function Le16(s: Bytes, i: nat): (n: nat)
    requires i + 2 <= |s|
    ensures n < 0x1_0000
  {
    s[i] as nat + 256 * s[i + 1] as nat
  }

  function Le32(s: Bytes, i: nat): (n: nat)
    requires i + 4 <= |s|
    ensures n < TWO_TO_THE_32
  {
    Le16(s, i) + 0x1_0000 * Le16(s, i + 2)
  }

  function Signed32(n: nat): int { if n < TWO_TO_THE_31 then n else n - TWO_TO_THE_32 }

  function Min(a: nat, b: nat): nat { if a < b then a else b }

  function AgeBits(st: Stored, nowMs: nat): nat { SaturatingSub(nowMs, st.tsMs) % TWO_TO_THE_32 }

  // ---- the encoder --------------------------------------------------------------------

  function EncodeEvent(st: Stored, nowMs: nat): Bytes {
    var e := st.ev;
    var dlen := Min(|e.desc|, 255);
    LeU32(AgeBits(st, nowMs)) + e.sx + e.sy + e.dx + e.dy + LeU16(e.flag % 0x1_0000)
    + [e.kind, e.srcBoard, e.dstBoard, dlen as u8] + e.desc[..dlen]
  }

  function EncodeEvents(events: seq<Stored>, nowMs: nat): Bytes {
    if events == [] then [] else EncodeEvent(events[0], nowMs) + EncodeEvents(events[1..], nowMs)
  }

  function EncodeFrame(events: seq<Stored>, nowMs: nat): Bytes {
    [3, 1, 0, 0] + LeU32(|events| % TWO_TO_THE_32) + EncodeEvents(events, nowMs)
  }

  // One event's fields, appended in wire order.
  method AppendEvent(buf0: Bytes, st: Stored, nowMs: nat) returns (buf: Bytes)
    ensures buf == buf0 + EncodeEvent(st, nowMs)
  {
    hide LeU16, LeU32;
    var age := SaturatingSub(nowMs, st.tsMs) % TWO_TO_THE_32;
    var desc := st.ev.desc;
    var dlen := Min(|desc|, 255);
    ghost var part := LeU32(age);
    buf := buf0 + LeU32(age);
    buf := buf + st.ev.sx;
    part := part + st.ev.sx;
    assert buf == buf0 + part;
    buf := buf + st.ev.sy;
    part := part + st.ev.sy;
    assert buf == buf0 + part;
    buf := buf + st.ev.dx;
    part := part + st.ev.dx;
    assert buf == buf0 + part;
    buf := buf + st.ev.dy;
    part := part + st.ev.dy;
    assert buf == buf0 + part;
    buf := buf + LeU16(st.ev.flag % 0x1_0000);
    part := part + LeU16(st.ev.flag % 0x1_0000);
    assert buf == buf0 + part;
    buf := buf + [st.ev.kind, st.ev.srcBoard, st.ev.dstBoard, dlen as u8];
    part := part + [st.ev.kind, st.ev.srcBoard, st.ev.dstBoard, dlen as u8];
    assert buf == buf0 + part;
    buf := buf + desc[..dlen];
    part := part + desc[..dlen];
    assert buf == buf0 + part;
  }

  method EncodeFlyFrame(events: seq<Stored>, nowMs: nat) returns (buf: Bytes)
    ensures buf == EncodeFrame(events, nowMs)
  {
    hide EncodeEvent, LeU32;
    buf := [3, 1, 0, 0];
    buf := buf + LeU32(|events| % TWO_TO_THE_32);
    assert events[0..] == events;
    var i := 0;
    while i < |events|
      invariant 0 <= i <= |events|
      invariant buf + EncodeEvents(events[i..], nowMs) == EncodeFrame(events, nowMs)
    {
      assert events[i..][0] == events[i] && events[i..][1..] == events[i + 1..];
      ghost var before, e, rest := buf, EncodeEvent(events[i], nowMs), EncodeEvents(events[i + 1..], nowMs);
      buf := AppendEvent(buf, events[i], nowMs);
      assert (before + e) + rest == before + (e + rest);
      i := i + 1;
    }
    assert events[i..] == [] && buf + [] == buf;
  }

  // ---- the decoder --------------------------------------------------------------------

  // Ignored: not a version 3 type 1 frame. Overrun: a read past the end threw after some events.
  datatype Outcome = Ignored | Complete(rest: Bytes) | Overrun

  function DecodeEvent(d: Bytes): Shown
    requires |d| >= 26 && |d| >= 26 + d[25] as nat
  {
    Shown(Signed32(Le32(d, 0)), d[4..8], d[8..12], d[12..16], d[16..20], Le16(d, 20), d[22], d[23], d[24],
          d[26..26 + d[25] as nat])
  }

  predicate HasEvent(d: Bytes) { |d| >= 26 && |d| >= 26 + d[25] as nat }

  function DecodeEvents(d: Bytes, count: nat): (seq<Shown>, Outcome) {
    if count == 0 then ([], Complete(d))
    else if !HasEvent(d) then ([], Overrun)
    else
      var (rest, end) := DecodeEvents(d[26 + d[25] as nat..], count - 1);
      ([DecodeEvent(d)] + rest, end)
  }

  function DecodeFrame(data: Bytes): (seq<Shown>, Outcome) {
    if |data| < 2 then ([], if |data| == 1 && data[0] != 3 then Ignored else Overrun)
    else if data[0] != 3 || data[1] != 1 then ([], Ignored)
    else if |data| < 8 then ([], Overrun)
    else DecodeEvents(data[8..], Le32(data, 4))
  }

  // The viewer's message handler; pushed is what it has pushed when it returns or throws.
  method OnMessage(data: Bytes) returns (pushed: seq<Shown>, end: Outcome)
    ensures (pushed, end) == DecodeFrame(data)
  {
    hide Le16, Le32, Signed32, DecodeEvent;
    pushed := [];
    if |data| == 0 { end := Overrun; return; }
    if data[0] != 3 { end := Ignored; return; }
    if |data| == 1 { end := Overrun; return; }
    if data[1] != 1 { end := Ignored; return; }
    if |data| < 8 { end := Overrun; return; }
    var count := Le32(data, 4);
    var off := 8;
    var i := 0;
    Nothing(DecodeEvents(data[8..], count).0);
    assert DecodeFrame(data) == DecodeEvents(data[8..], count);
    hide *;
    while i < count
      invariant 0 <= i <= count && 8 <= off <= |data|
      invariant pushed + DecodeEvents(data[off..], count - i).0 == DecodeFrame(data).0
      invariant DecodeEvents(data[off..], count - i).1 == DecodeFrame(data).1
    {
      Nothing(pushed);
      DecodeNone(data, off, count - i);
      if off + 26 > |data| { end := Overrun; return; }
      var dlen := data[off + 25] as nat;
      if off + 26 + dlen > |data| { end := Overrun; return; }
      var shown := ReadEvent(data, off, dlen);
      DecodeOne(data, off, count - i);
      Sequences.Associate(pushed, [shown], DecodeEvents(data[off + 26 + dlen..], count - i - 1).0);
      pushed := pushed + [shown];
      off := off + 26 + dlen;
      i := i + 1;
    }
    Nothing(pushed);
    DecodeNone(data, off, 0);
    end := Complete(data[off..]);
  }

  // The reads of one event, all inside the frame.
  method ReadEvent(data: Bytes, off: nat, dlen: nat) returns (shown: Shown)
    requires off + 26 <= |data| && dlen == data[off + 25] as nat && off + 26 + dlen <= |data|
    ensures HasEvent(data[off..]) && shown == DecodeEvent(data[off..])
  {
    shown := Shown(Signed32(Le32(data, off)), data[off + 4..off + 8], data[off + 8..off + 12],
                   data[off + 12..off + 16], data[off + 16..off + 20], Le16(data, off + 20),
                   data[off + 22], data[off + 23], data[off + 24], data[off + 26..off + 26 + dlen]);
    ShiftedDecode(data, off);
    hide Le16, Le32, Signed32, DecodeEvent;
  }

  lemma Nothing(a: seq<Shown>)
    ensures a + [] == a == [] + a
  {
  }

  // No event to decode: none is asked for, or the octets run out.
  lemma DecodeNone(data: Bytes, off: nat, count: nat)
    requires off <= |data|
    ensures count == 0 ==> DecodeEvents(data[off..], count) == ([], Complete(data[off..]))
    ensures count > 0 && (off + 26 > |data| || off + 26 + data[off + 25] as nat > |data|)
            ==> DecodeEvents(data[off..], count) == ([], Overrun)
  {
  }

  lemma DecodeOne(data: Bytes, off: nat, count: nat)
    requires count > 0 && off + 26 <= |data| && off + 26 + data[off + 25] as nat <= |data|
    ensures var (rest, end) := DecodeEvents(data[off + 26 + data[off + 25] as nat..], count - 1);
            HasEvent(data[off..]) && DecodeEvents(data[off..], count) == ([DecodeEvent(data[off..])] + rest, end)
  {
    hide DecodeEvent;
    var dlen := data[off + 25] as nat;
    assert data[off..][25] == data[off + 25] && data[off..][26 + dlen..] == data[off + 26 + dlen..];
  }

  lemma ShiftedDecode(data: Bytes, off: nat)
    requires off + 26 <= |data| && off + 26 + data[off + 25] as nat <= |data|
    ensures HasEvent(data[off..])
    ensures DecodeEvent(data[off..])
         == Shown(Signed32(Le32(data, off)), data[off + 4..off + 8], data[off + 8..off + 12],
                  data[off + 12..off + 16], data[off + 16..off + 20], Le16(data, off + 20), data[off + 22],
                  data[off + 23], data[off + 24], data[off + 26..off + 26 + data[off + 25] as nat])
  {
  }

  // ---- the round trip -----------------------------------------------------------------

  // What survives encoding: the age and the flag keep their low bits, the description 255 octets.
  function Surviving(st: Stored, nowMs: nat): Shown {
    var e := st.ev;
    Shown(Signed32(AgeBits(st, nowMs)), e.sx, e.sy, e.dx, e.dy, e.flag % 0x1_0000,
          e.kind, e.srcBoard, e.dstBoard, e.desc[..Min(|e.desc|, 255)])
  }

  function SurvivingAll(events: seq<Stored>, nowMs: nat): seq<Shown> {
    if events == [] then [] else [Surviving(events[0], nowMs)] + SurvivingAll(events[1..], nowMs)
  }

  lemma ReadLeU16(pre: Bytes, n: nat, post: Bytes)
    requires n < 0x1_0000
    ensures Le16(pre + LeU16(n) + post, |pre|) == n
  {
    var s := pre + LeU16(n) + post;
    assert s[|pre|] == LeU16(n)[0] && s[|pre| + 1] == LeU16(n)[1];
  }

  lemma ReadLeU32(pre: Bytes, n: nat, post: Bytes)
    requires n < TWO_TO_THE_32
    ensures Le32(pre + LeU32(n) + post, |pre|) == n
  {
    var lo, hi := LeU16(n % 0x1_0000), LeU16(n / 0x1_0000);
    ReadLeU16(pre, n % 0x1_0000, hi + post);
    ReadLeU16(pre + lo, n / 0x1_0000, post);
    assert pre + LeU32(n) + post == pre + lo + (hi + post) == (pre + lo) + hi + post;
  }

  // The fixed 26-octet part of an event, taken apart again.
  lemma Parts(a: F32, b: F32, c: F32, d: F32, e: F32, f: Bytes, g: Bytes, desc: Bytes, post: Bytes)
    requires |f| == 2 && |g| == 4
    ensures var s := a + b + c + d + e + f + g + desc + post;
            && s == [] + a + (b + c + d + e + f + g + desc + post)
            && s == (a + b + c + d + e) + f + (g + desc + post)
            && s[4..8] == b && s[8..12] == c && s[12..16] == d && s[16..20] == e
            && s[22] == g[0] && s[23] == g[1] && s[24] == g[2] && s[25] == g[3]
            && s[26..26 + |desc|] == desc && s[26 + |desc|..] == post
  {
  }

  lemma EventRoundTrip(st: Stored, nowMs: nat, post: Bytes)
    ensures var d := EncodeEvent(st, nowMs) + post;
            HasEvent(d) && DecodeEvent(d) == Surviving(st, nowMs) && d[26 + d[25] as nat..] == post
  {
    var e := st.ev;
    var dlen := Min(|e.desc|, 255);
    var a, f := LeU32(AgeBits(st, nowMs)), LeU16(e.flag % 0x1_0000);
    var g := [e.kind, e.srcBoard, e.dstBoard, dlen as u8];
    Parts(a, e.sx, e.sy, e.dx, e.dy, f, g, e.desc[..dlen], post);
    ReadLeU32([], AgeBits(st, nowMs), e.sx + e.sy + e.dx + e.dy + f + g + e.desc[..dlen] + post);
    ReadLeU16(a + e.sx + e.sy + e.dx + e.dy, e.flag % 0x1_0000, g + e.desc[..dlen] + post);
    hide Le16, Le32, LeU16, LeU32, Signed32, AgeBits;
  }

  lemma {:induction false} EventsRoundTrip(events: seq<Stored>, nowMs: nat)
    ensures DecodeEvents(EncodeEvents(events, nowMs), |events|) == (SurvivingAll(events, nowMs), Complete([]))
  {
    if events != [] {
      EventRoundTrip(events[0], nowMs, EncodeEvents(events[1..], nowMs));
      EventsRoundTrip(events[1..], nowMs);
      hide EncodeEvent, DecodeEvent, Surviving;
    }
  }

  /** Encoding then decoding recovers every event of a frame and ends exactly at the frame's end. */
  lemma FrameRoundTrip(events: seq<Stored>, nowMs: nat)
    requires |events| < TWO_TO_THE_32
    ensures DecodeFrame(EncodeFrame(events, nowMs)) == (SurvivingAll(events, nowMs), Complete([]))
  {
    hide *;
    EventsRoundTrip(events, nowMs);
    FrameBody(events, nowMs);
  }

  lemma FrameBody(events: seq<Stored>, nowMs: nat)
    requires |events| < TWO_TO_THE_32
    ensures DecodeFrame(EncodeFrame(events, nowMs)) == DecodeEvents(EncodeEvents(events, nowMs), |events|)
  {
    hide EncodeEvents, DecodeEvents, LeU32, Le32;
    assert |events| % TWO_TO_THE_32 == |events|;
    HeaderReads(|events|, EncodeEvents(events, nowMs));
  }

  lemma HeaderReads(n: nat, body: Bytes)
    requires n < TWO_TO_THE_32
    ensures var f := [3, 1, 0, 0] + LeU32(n) + body;
            Le32(f, 4) == n && f[8..] == body && f[0] == 3 && f[1] == 1
  {
    ReadLeU32([3, 1, 0, 0], n, body);
    hide Le32, LeU32;
  }

  /** Every field survives unchanged exactly when the flag fits 16 bits, the age 31 bits and the
      description 255 octets. */
  lemma FaithfulIff(st: Stored, nowMs: nat)
    ensures var s, e := Surviving(st, nowMs), st.ev;
            && (s.age == SaturatingSub(nowMs, st.tsMs) <==> SaturatingSub(nowMs, st.tsMs) < TWO_TO_THE_31)
            && (s.flag == e.flag <==> e.flag < 0x1_0000)
            && (s.desc == e.desc <==> |e.desc| <= 255)
            && s.sx == e.sx && s.sy == e.sy && s.dx == e.dx && s.dy == e.dy
            && s.kind == e.kind && s.srcBoard == e.srcBoard && s.dstBoard == e.dstBoard
  {
    assert st.ev.desc[..|st.ev.desc|] == st.ev.desc;
  }

  // ---- the backfill ---------------------------------------------------------------------

  function DecodeAll(frames: seq<Bytes>): seq<Shown> {
    if frames == [] then [] else DecodeAll(frames[..|frames| - 1]) + DecodeFrame(frames[|frames| - 1]).0
  }

  lemma {:induction false} SurvivingAppend(a: seq<Stored>, b: seq<Stored>, nowMs: nat)
    ensures SurvivingAll(a + b, nowMs) == SurvivingAll(a, nowMs) + SurvivingAll(b, nowMs)
  {
    hide Surviving;
    if a == [] {
      assert a + b == b;
    } else {
      SurvivingAppend(a[1..], b, nowMs);
      assert (a + b)[1..] == a[1..] + b;
    }
  }

  lemma DecodeSnoc(frames: seq<Bytes>, chunk: seq<Stored>, nowMs: nat)
    requires |chunk| < TWO_TO_THE_32
    ensures DecodeAll(frames + [EncodeFrame(chunk, nowMs)]) == DecodeAll(frames) + SurvivingAll(chunk, nowMs)
  {
    FrameRoundTrip(chunk, nowMs);
    var all := frames + [EncodeFrame(chunk, nowMs)];
    assert all[..|all| - 1] == frames;
    hide DecodeFrame, EncodeFrame, SurvivingAll;
  }

  /** The chunked backfill: decoding its frames in order gives the whole ring, and each frame but the
      last carries exactly 4096 events. */
  method Backfill(ring: seq<Stored>, nowMs: nat) returns (frames: seq<Bytes>)
    ensures DecodeAll(frames) == SurvivingAll(ring, nowMs)
    ensures |frames| == (|ring| + BACKFILL_CHUNK - 1) / BACKFILL_CHUNK
    ensures forall k :: 0 <= k < |frames| ==>
              frames[k] == EncodeFrame(ring[4096 * k..Min(4096 * (k + 1), |ring|)], nowMs)
  {
    hide DecodeAll, SurvivingAll, EncodeFrame;
    frames := [];
    var chunk: seq<Stored> := [];
    var i := 0;
    assert ring[..0] == [] && DecodeAll([]) == SurvivingAll([], nowMs) by { EmptyBackfill(nowMs); }
    while i < |ring|
      invariant 0 <= i <= |ring|
      invariant |chunk| < BACKFILL_CHUNK && i == 4096 * |frames| + |chunk|
      invariant chunk == ring[4096 * |frames|..i]
      invariant DecodeAll(frames) == SurvivingAll(ring[..4096 * |frames|], nowMs)
      invariant forall k :: 0 <= k < |frames| ==>
                  frames[k] == EncodeFrame(ring[4096 * k..Min(4096 * (k + 1), |ring|)], nowMs)
    {
      chunk := chunk + [ring[i]];
      i := i + 1;
      if |chunk| == BACKFILL_CHUNK {
        ExtendBackfill(ring, frames, chunk, nowMs);
        frames := frames + [EncodeFrame(chunk, nowMs)];
        chunk := [];
      }
    }
    if chunk != [] {
      ExtendBackfill(ring, frames, chunk, nowMs);
      frames := frames + [EncodeFrame(chunk, nowMs)];
    }
    assert ring[..|ring|] == ring;
  }

  lemma EmptyBackfill(nowMs: nat)
    ensures DecodeAll([]) == SurvivingAll([], nowMs)
  {
  }

  lemma ExtendBackfill(ring: seq<Stored>, frames: seq<Bytes>, chunk: seq<Stored>, nowMs: nat)
    requires 4096 * |frames| + |chunk| <= |ring| && |chunk| <= BACKFILL_CHUNK
    requires chunk == ring[4096 * |frames|..4096 * |frames| + |chunk|]
    requires DecodeAll(frames) == SurvivingAll(ring[..4096 * |frames|], nowMs)
    ensures DecodeAll(frames + [EncodeFrame(chunk, nowMs)])
         == SurvivingAll(ring[..4096 * |frames| + |chunk|], nowMs)
  {
    hide DecodeAll, SurvivingAll, EncodeFrame;
    DecodeSnoc(frames, chunk, nowMs);
    SurvivingAppend(ring[..4096 * |frames|], chunk, nowMs);
    assert ring[..4096 * |frames| + |chunk|] == ring[..4096 * |frames|] + chunk;
  }
}
