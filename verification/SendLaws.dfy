/** Laws of the send path over whole runs: nothing lost or reordered, bounded buffers, bounded gaps. */
module SendLaws {
  import opened Octets
  import opened Text
  import opened Send
  import Auth
  import Sequences

  // The state after a run, and everything emitted.
  function Run(cfg: Config, st: State, evs: seq<Event>): (State, seq<Datagram>) {
    if evs == [] then (st, [])
    else
      var (s, ds) := Run(cfg, st, evs[..|evs| - 1]);
      var (s', more) := Step(cfg, s, evs[|evs| - 1]);
      (s', ds + more)
  }

  // The messages the rate limiter lets through, in order.
  function Passed(cfg: Config, st: State, evs: seq<Event>): seq<string> {
    if evs == [] then []
    else
      var before, e := evs[..|evs| - 1], evs[|evs| - 1];
      Passed(cfg, st, before) + if e.Send? && Run(cfg, st, before).0.rate == 1 then [e.mesg] else []
  }

  // A message without its record header.
  function Strip(m: string): string { if HEADER <= m then m[|HEADER|..] else m }

  function StripAll(ms: seq<string>): string {
    if ms == [] then "" else StripAll(ms[..|ms| - 1]) + Strip(ms[|ms| - 1])
  }

  function Payloads(ds: seq<Datagram>): (ps: seq<string>)
    ensures |ps| == |ds|
  {
    seq(|ds|, i requires 0 <= i < |ds| => ds[i].payload)
  }

  lemma StripSnoc(ms: seq<string>, m: string)
    ensures StripAll(ms + [m]) == StripAll(ms) + Strip(m)
  {
    assert (ms + [m])[..|ms + [m]| - 1] == ms;
  }

  lemma StripNone(a: seq<string>)
    ensures StripAll([]) == "" && a + [] == a && StripAll(a) + "" == StripAll(a)
  {
  }

  lemma {:induction false} StripAppend(a: seq<string>, b: seq<string>)
    ensures StripAll(a + b) == StripAll(a) + StripAll(b)
  {
    hide Strip, StripAll;
    if b == [] {
      StripNone(a);
    } else {
      var n := |b| - 1;
      StripAppend(a, b[..n]);
      assert a + b == (a + b[..n]) + [b[n]] && b == b[..n] + [b[n]];
      StripSnoc(a + b[..n], b[n]);
      StripSnoc(b[..n], b[n]);
      assert (StripAll(a) + StripAll(b[..n])) + Strip(b[n]) == StripAll(a) + (StripAll(b[..n]) + Strip(b[n]));
    }
  }

  lemma StripHeader(buf: string)
    ensures Strip(HEADER + buf) == buf
  {
  }

  lemma StripOne(m: string)
    ensures StripAll([m]) == Strip(m)
  {
    hide Strip;
    assert [m][..0] == [];
  }

  lemma StripFlushed(buf: string, ts: int)
    ensures StripAll(Payloads(Flushed(buf, ts))) == buf
  {
    hide Strip;
    if buf != "" {
      assert Payloads(Flushed(buf, ts)) == [HEADER + buf];
      StripOne(HEADER + buf);
      StripHeader(buf);
    }
  }

  lemma PayloadsAppend(a: seq<Datagram>, b: seq<Datagram>)
    ensures Payloads(a + b) == Payloads(a) + Payloads(b)
  {
  }

  // What one step adds to the stripped output and the buffer together: the message it lets through.
  lemma StepConserves(cfg: Config, st: State, e: Event)
    ensures var (s, ds) := Step(cfg, st, e);
            StripAll(Payloads(ds)) + s.buf == st.buf + if e.Send? && st.rate == 1 then Strip(e.mesg) else ""
  {
    hide ByteLen, Expired, Rate, StripAll;
    assert StripAll(Payloads([])) == "" by { StripFlushed("", 0); }
    match e
    case Flush(ts) => StripFlushed(st.buf, ts);
    case Send(mesg, env) =>
      if st.rate == 1 {
        StripFlushed(st.buf, env.preTs);
        if cfg.bulkMs > 0 && HEADER <= mesg && ByteLen(mesg[|HEADER|..]) <= BULK_PAYLOAD {
          var rec := mesg[|HEADER|..];
          var kept := if ByteLen(st.buf) + ByteLen(rec) > BULK_PAYLOAD then "" else st.buf;
          var early := if ByteLen(st.buf) + ByteLen(rec) > BULK_PAYLOAD then Flushed(st.buf, env.preTs) else [];
          StripFlushed(kept + rec, env.postTs);
          PayloadsAppend(early, Flushed(kept + rec, env.postTs));
          StripAppend(Payloads(early), Payloads(Flushed(kept + rec, env.postTs)));
        } else {
          var d := Datagram(mesg, env.postTs);
          PayloadsAppend(Flushed(st.buf, env.preTs), [d]);
          assert Payloads([d]) == [mesg];
          StripSnoc(Payloads(Flushed(st.buf, env.preTs)), mesg);
        }
      }
  }

  /** Conservation and order: over every run of sends and flushes and every clock, the stripped
      datagrams followed by the buffer are exactly the messages let through, stripped, in order. */
  lemma {:induction false} BulkConserves(cfg: Config, st: State, evs: seq<Event>)
    requires st.buf == ""
    ensures var (s, ds) := Run(cfg, st, evs);
            StripAll(Payloads(ds)) + s.buf == StripAll(Passed(cfg, st, evs))
  {
    if evs == [] {
      assert StripAll(Payloads([])) + "" == "";
    } else {
      var before, e := evs[..|evs| - 1], evs[|evs| - 1];
      BulkConserves(cfg, st, before);
      var (s, ds) := Run(cfg, st, before);
      StepConserves(cfg, s, e);
      var (s', more) := Step(cfg, s, e);
      hide Step, StripAll, Strip, Payloads;
      PayloadsAppend(ds, more);
      StripAppend(Payloads(ds), Payloads(more));
      var passed, let := Passed(cfg, st, before), if e.Send? && s.rate == 1 then [e.mesg] else [];
      StripAppend(passed, let);
      assert StripAll(let) == if e.Send? && s.rate == 1 then Strip(e.mesg) else "" by {
        if let == [] { StripNone([]); } else { StripOne(e.mesg); }
      }
      Sequences.Exchange(StripAll(Payloads(ds)), s.buf, StripAll(Payloads(more)), s'.buf, StripAll(let));
    }
  }

  // ---- bounds -------------------------------------------------------------------------------

  ghost predicate Bounded(d: Datagram) { ByteLen(d.payload) <= 8 + BULK_PAYLOAD }

  lemma FlushedBounded(buf: string, ts: int)
    requires ByteLen(buf) <= BULK_PAYLOAD
    ensures forall i :: 0 <= i < |Flushed(buf, ts)| ==> Bounded(Flushed(buf, ts)[i])
  {
    HeaderBytes();
    BytesAdd(HEADER, buf);
    hide ByteLen;
  }

  /** The buffer never exceeds 1320 octets, and every datagram is at most 1328 octets or a message sent
      as it came. */
  lemma {:induction false} BulkBounded(cfg: Config, st: State, evs: seq<Event>)
    requires st.buf == ""
    ensures var (s, ds) := Run(cfg, st, evs);
            && ByteLen(s.buf) <= BULK_PAYLOAD
            && forall i :: 0 <= i < |ds| ==> Bounded(ds[i]) || ds[i].payload in Passed(cfg, st, evs)
  {
    if evs == [] {
    } else {
      var before, e := evs[..|evs| - 1], evs[|evs| - 1];
      BulkBounded(cfg, st, before);
      var (s, ds) := Run(cfg, st, before);
      StepBounded(cfg, s, e);
      hide Step, Bounded, ByteLen;
    }
  }

  lemma StepBounded(cfg: Config, st: State, e: Event)
    requires ByteLen(st.buf) <= BULK_PAYLOAD
    ensures var (s, ds) := Step(cfg, st, e);
            && ByteLen(s.buf) <= BULK_PAYLOAD
            && forall i :: 0 <= i < |ds| ==> Bounded(ds[i]) || (e.Send? && st.rate == 1 && ds[i].payload == e.mesg)
  {
    assert ByteLen("") == 0;
    hide ByteLen, Bounded, Expired, Rate;
    match e
    case Flush(ts) => FlushedBounded(st.buf, ts);
    case Send(mesg, env) =>
      FlushedBounded(st.buf, env.preTs);
      if HEADER <= mesg && ByteLen(mesg[|HEADER|..]) <= BULK_PAYLOAD {
        var rec := mesg[|HEADER|..];
        var kept := if ByteLen(st.buf) + ByteLen(rec) > BULK_PAYLOAD then "" else st.buf;
        BytesAdd(kept, rec);
        if ByteLen(kept + rec) <= BULK_PAYLOAD { FlushedBounded(kept + rec, env.postTs); }
      }
  }

  lemma {:induction false} DecimalLength(n: nat, k: nat, bound: nat)
    requires k > 0 && n < bound && bound == Pow10(k)
    ensures |Decimal(n)| <= k
    decreases k
  {
    if n >= 10 { DecimalLength(n / 10, k - 1, Pow10(k - 1)); }
  }

  function Pow10(k: nat): nat { if k == 0 then 1 else 10 * Pow10(k - 1) }

  lemma StampLength(ts: nat)
    requires ts < 10_000_000_000
    ensures |PrintInt(ts)| <= 10 && Ascii(PrintInt(ts)) && ByteLen(PrintInt(ts)) <= 10
  {
    TenDigits();
    DecimalLength(ts, 10, 10_000_000_000);
    DecimalReads(ts);
    DigitsAreInk(Decimal(ts));
    AsciiLen(Decimal(ts));
  }

  lemma TenDigits()
    ensures Pow10(10) == 10_000_000_000
  {
  }

  lemma Six(a: string, b: string, c: string, d: string, e: string, f: string)
    ensures ByteLen(a + b + c + d + e + f)
         == ByteLen(a) + ByteLen(b) + ByteLen(c) + ByteLen(d) + ByteLen(e) + ByteLen(f)
  {
    BytesAdd(a, b);
    BytesAdd(a + b, c);
    BytesAdd(a + b + c, d);
    BytesAdd(a + b + c + d, e);
    BytesAdd(a + b + c + d + e, f);
    hide ByteLen;
  }

  lemma HexSize(mac: Auth.Mac, psk: Bytes, m: Bytes)
    requires Auth.Hash32(mac)
    ensures ByteLen(Auth.Hex(Auth.AgentMac(mac, psk, m))) == 64
  {
    var a := Auth.AgentMac(mac, psk, m);
    assert |a| == 32;
    Auth.HexRoundTrip(a);
    AsciiLen(Auth.Hex(a));
    hide ByteLen;
  }

  lemma AgentHeaderSize()
    ensures ByteLen(Auth.HEADER) == 13
  {
    hide ByteLen;
    var h := Auth.HEADER;
    assert |h| == 13;
    AsciiLen(h);
  }

  lemma OneChar(c: char)
    requires c as int < 0x80
    ensures ByteLen([c]) == 1
  {
    hide ByteLen;
    AsciiLen([c]);
  }

  lemma Punctuation()
    ensures ByteLen(Auth.HEADER) == 13 && ByteLen(",") == 1 && ByteLen("\n") == 1 && ByteLen("") == 0
  {
    assert ByteLen("") == 0;
    hide ByteLen;
    AgentHeaderSize();
    OneChar(',');
    OneChar('\n');
    assert [','] == "," && ['\n'] == "\n";
  }

  /** With a ten-digit timestamp the signed line takes at most 90 octets and the id's. */
  lemma LineSize(mac: Auth.Mac, id: string, psk: Bytes, ts: nat, payload: string)
    requires ts < 10_000_000_000 && psk != [] && Auth.Hash32(mac)
    ensures ByteLen(Auth.AgentLine(mac, id, psk, ts, payload)) <= 90 + ByteLen(id)
  {
    hide PrintInt, ByteLen, Auth.Hex, Auth.AgentMac, Auth.Signed;
    var h := Auth.Hex(Auth.AgentMac(mac, psk, Auth.Signed(id, ts, payload)));
    HexSize(mac, psk, Auth.Signed(id, ts, payload));
    StampLength(ts);
    Punctuation();
    Six(Auth.HEADER, id, ",", PrintInt(ts), ",", h);
    BytesAdd(Auth.HEADER + id + "," + PrintInt(ts) + "," + h, "\n");
  }

  /** The text under the MAC takes at most 12 octets more than the id's and the payload's. */
  lemma TextSize(id: string, ts: nat, payload: string)
    requires ts < 10_000_000_000
    ensures |Auth.Signed(id, ts, payload)| <= 12 + ByteLen(id) + ByteLen(payload)
  {
    StampLength(ts);
    Punctuation();
    SignedText(id, ts, payload);
    hide PrintInt, ByteLen;
    Six(id, ",", PrintInt(ts), "\n", payload, "");
  }

  lemma SignedText(id: string, ts: nat, payload: string)
    ensures |Auth.Signed(id, ts, payload)| == ByteLen(id + "," + PrintInt(ts) + "\n" + payload + "")
  {
    assert id + "," + PrintInt(ts) + "\n" + payload + "" == id + "," + PrintInt(ts) + "\n" + payload;
  }

  /** A signed bulk datagram is at most 1328 + 90 + |id| octets and its signed text at most 2048, so
      neither signing buffer truncates it. */
  lemma SignedBulkFits(cfg: Config, mac: Auth.Mac, d: Datagram)
    requires cfg.psk != [] && cfg.id != "" && ByteLen(cfg.id) <= 63 && 0 <= d.ts < 10_000_000_000
    requires Bounded(d) && Auth.Hash32(mac)
    ensures ByteLen(Wire(cfg, mac, d)) <= 1328 + 90 + ByteLen(cfg.id)
    ensures |Auth.Signed(cfg.id, d.ts, d.payload)| <= Auth.MAC_LIMIT
    ensures ByteLen(Auth.AgentLine(mac, cfg.id, cfg.psk, d.ts, d.payload)) < 256
  {
    LineSize(mac, cfg.id, cfg.psk, d.ts, d.payload);
    TextSize(cfg.id, d.ts, d.payload);
    BytesAdd(Auth.AgentLine(mac, cfg.id, cfg.psk, d.ts, d.payload), d.payload);
    hide ByteLen, Auth.AgentLine, Auth.Signed;
  }

  // ---- the rate limiter ------------------------------------------------------------------------

  // The messages offered, whatever flushes stand between them.
  function Sends(evs: seq<Event>): nat {
    if evs == [] then 0 else Sends(evs[..|evs| - 1]) + if evs[|evs| - 1].Send? then 1 else 0
  }

  lemma {:induction false} RateInRange(cfg: Config, st: State, evs: seq<Event>)
    requires 1 <= st.rate <= (if cfg.rateLimit < 1 then 1 else cfg.rateLimit)
    ensures 1 <= Run(cfg, st, evs).0.rate <= (if cfg.rateLimit < 1 then 1 else cfg.rateLimit)
  {
    hide Rate, ByteLen, Expired, Flushed;
    if evs != [] { RateInRange(cfg, st, evs[..|evs| - 1]); }
  }

  lemma {:induction false} CountsDown(cfg: Config, st: State, evs: seq<Event>)
    requires Sends(evs) < st.rate
    ensures Run(cfg, st, evs).0.rate == st.rate - Sends(evs) && Passed(cfg, st, evs) == []
  {
    hide Rate, ByteLen, Expired, Flushed;
    if evs != [] { CountsDown(cfg, st, evs[..|evs| - 1]); }
  }

  /** The message that the countdown reaches passes and none before it does, flushes or not. */
  lemma CountdownPasses(cfg: Config, st: State, evs: seq<Event>)
    requires evs != [] && evs[|evs| - 1].Send? && Sends(evs) == st.rate
    ensures Passed(cfg, st, evs) == [evs[|evs| - 1].mesg]
  {
    hide Step;
    CountsDown(cfg, st, evs[..|evs| - 1]);
  }

  /** From any reachable state, any rate_limit consecutive messages, however many flushes come between
      them, include one that passes. */
  lemma {:induction false} OneInLimit(cfg: Config, st: State, evs: seq<Event>)
    requires 1 <= st.rate <= (if cfg.rateLimit < 1 then 1 else cfg.rateLimit)
    requires Sends(evs) >= (if cfg.rateLimit < 1 then 1 else cfg.rateLimit)
    ensures Passed(cfg, st, evs) != []
  {
    var before := evs[..|evs| - 1];
    if Sends(before) >= (if cfg.rateLimit < 1 then 1 else cfg.rateLimit) {
      hide Run;
      OneInLimit(cfg, st, before);
    } else if Passed(cfg, st, before) == [] {
      Silent(cfg, st, before);
      hide Run;
    }
  }

  // As long as nothing passes, the countdown has not been reached.
  lemma {:induction false} Silent(cfg: Config, st: State, evs: seq<Event>)
    requires 1 <= st.rate && Passed(cfg, st, evs) == []
    ensures Sends(evs) < st.rate && Run(cfg, st, evs).0.rate == st.rate - Sends(evs)
  {
    hide Rate, ByteLen, Expired, Flushed;
    if evs != [] { Silent(cfg, st, evs[..|evs| - 1]); }
  }
}
