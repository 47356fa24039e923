/** The agent's send path: randomized rate limiting, the bulk buffer, and the datagrams that leave. */
module Send {
  import opened Octets
  import opened Text
  import Auth

  const HEADER := "PACKTER\n"
  const BULK_PAYLOAD := 1320
  const MESG_MAX := 16383

  // ---- clocks and the rate limiter ---------------------------------------------------------

  datatype Time = Time(sec: int, usec: int)

  predicate TimeValid(t: Time) { 0 <= t.usec < 1_000_000 }

  function DiffSec(a: Time, b: Time): nat {
    if a.sec <= b.sec then 0
    else if a.usec <= b.usec then a.sec - b.sec - 1
    else a.sec - b.sec
  }

  function DiffUsec(a: Time, b: Time): int {
    if a.sec < b.sec then 0
    else if a.sec == b.sec then if a.usec <= b.usec then 0 else a.usec - b.usec
    else if a.usec <= b.usec then 1_000_000 + a.usec - b.usec
    else a.usec - b.usec
  }

  function Micros(t: Time): int { 1_000_000 * t.sec + t.usec }

  /** The two differences together are the elapsed microseconds, and zero when time ran backwards. */
  lemma DiffsAreElapsed(a: Time, b: Time)
    requires TimeValid(a) && TimeValid(b)
    ensures 1_000_000 * DiffSec(a, b) + DiffUsec(a, b)
         == if Micros(a) < Micros(b) then 0 else Micros(a) - Micros(b)
  {
  }

  function Rate(limit: int, rand: nat): (r: nat)
    ensures 1 <= r && (limit < 1 ==> r == 1) && (limit >= 1 ==> r <= limit)
  {
    if limit < 1 then 1 else rand % limit + 1
  }

  // ---- the specification --------------------------------------------------------------------

  datatype Config = Config(rateLimit: int, bulkMs: nat, id: string, psk: Bytes)

  // What one call reads from its surroundings: a random number, the bulk clock when the buffer opens
  // and when its age is checked, and the signing times of the datagrams it may emit.
  datatype Env = Env(rand: nat, first: Time, check: Time, preTs: int, postTs: int)

  datatype Event = Send(mesg: string, env: Env) | Flush(ts: int)

  datatype State = State(rate: int, buf: string, first: Time)

  // A datagram before its PACKTERAGENT line, and the time that line would carry.
  datatype Datagram = Datagram(payload: string, ts: int)

  predicate Expired(cfg: Config, buf: string, first: Time, now: Time) {
    buf != "" && DiffSec(now, first) * 1000 + DiffUsec(now, first) / 1000 >= cfg.bulkMs
  }

  function Flushed(buf: string, ts: int): seq<Datagram> {
    if buf == "" then [] else [Datagram(HEADER + buf, ts)]
  }

  function Step(cfg: Config, st: State, e: Event): (State, seq<Datagram>) {
    match e
    case Flush(ts) => (st.(buf := ""), Flushed(st.buf, ts))
    case Send(mesg, env) =>
      if st.rate != 1 then (st.(rate := st.rate - 1), [])
      else
        var rate := Rate(cfg.rateLimit, env.rand);
        if cfg.bulkMs > 0 && HEADER <= mesg && ByteLen(mesg[|HEADER|..]) <= BULK_PAYLOAD then
          var rec := mesg[|HEADER|..];
          var full := ByteLen(st.buf) + ByteLen(rec) > BULK_PAYLOAD;
          var kept := if full then "" else st.buf;
          var first := if kept == "" then env.first else st.first;
          var early := if full then Flushed(st.buf, env.preTs) else [];
          if Expired(cfg, kept + rec, first, env.check)
          then (State(rate, "", first), early + Flushed(kept + rec, env.postTs))
          else (State(rate, kept + rec, first), early)
        else (State(rate, "", st.first), Flushed(st.buf, env.preTs) + [Datagram(mesg, env.postTs)])
  }

  // The datagram as it goes out.
  function Wire(cfg: Config, mac: Auth.Mac, d: Datagram): string {
    if cfg.id == "" then d.payload else Auth.AgentLine(mac, cfg.id, cfg.psk, d.ts, d.payload) + d.payload
  }

  function Wires(cfg: Config, mac: Auth.Mac, ds: seq<Datagram>): seq<string> {
    if ds == [] then [] else Wires(cfg, mac, ds[..|ds| - 1]) + [Wire(cfg, mac, ds[|ds| - 1])]
  }

  // ---- the program ----------------------------------------------------------------------------

  class Sender {
    const cfg: Config
    const mac: Auth.Mac
    var rate: int
    var bulkBuf: string
    var bulkFirst: Time
    var sent: seq<string>

    function View(): State
      reads this
    {
      State(rate, bulkBuf, bulkFirst)
    }

    constructor (cfg: Config, mac: Auth.Mac, rand: nat)
      ensures this.cfg == cfg && this.mac == mac && sent == []
      ensures View() == State(Rate(cfg.rateLimit, rand), "", Time(0, 0))
    {
      this.cfg, this.mac := cfg, mac;
      rate, bulkBuf, bulkFirst, sent := Rate(cfg.rateLimit, rand), "", Time(0, 0), [];
    }

    // No message is longer than the longest buffer it is built in, so emit truncates nothing.
    method Emit(mesg: string, ts: int)
      requires ByteLen(mesg) <= MESG_MAX
      modifies this`sent
      ensures sent == old(sent) + [Wire(cfg, mac, Datagram(mesg, ts))]
    {
      var framed := mesg;
      if cfg.id != "" {
        framed := Auth.AgentLine(mac, cfg.id, cfg.psk, ts, mesg) + mesg;
      }
      sent := sent + [framed];
    }

    method FlushBuffer(ts: int)
      requires ByteLen(bulkBuf) <= BULK_PAYLOAD
      modifies this`sent, this`bulkBuf
      ensures bulkBuf == ""
      ensures sent == old(sent) + Wires(cfg, mac, Flushed(old(bulkBuf), ts))
    {
      if bulkBuf == "" {
        return;
      }
      Utf8Append(HEADER, bulkBuf);
      HeaderBytes();
      Emit(HEADER + bulkBuf, ts);
      WiresOne(cfg, mac, Datagram(HEADER + bulkBuf, ts));
      bulkBuf := "";
    }

    method SendMessage(mesg: string, env: Env)
      requires ByteLen(mesg) <= MESG_MAX && ByteLen(bulkBuf) <= BULK_PAYLOAD
      modifies this
      ensures var (st, ds) := Step(cfg, old(View()), Send(mesg, env));
              View() == st && sent == old(sent) + Wires(cfg, mac, ds)
      ensures ByteLen(bulkBuf) <= BULK_PAYLOAD
    {
      hide Wires, Wire, ByteLen, DiffSec, DiffUsec;
      assert Wires(cfg, mac, []) == [] && ByteLen("") == 0 by { NoWires(cfg, mac); }
      if rate != 1 {
        rate := rate - 1;
        return;
      }
      rate := Rate(cfg.rateLimit, env.rand);
      if cfg.bulkMs > 0 && HEADER <= mesg {
        var rec := mesg[|HEADER|..];
        if ByteLen(rec) > BULK_PAYLOAD {
          WiresAppend(cfg, mac, Flushed(bulkBuf, env.preTs), Datagram(mesg, env.postTs));
          FlushBuffer(env.preTs);
          Emit(mesg, env.postTs);
          return;
        }
        ghost var before := bulkBuf;
        ghost var full := ByteLen(bulkBuf) + ByteLen(rec) > BULK_PAYLOAD;
        if ByteLen(bulkBuf) + ByteLen(rec) > BULK_PAYLOAD {
          FlushBuffer(env.preTs);
        }
        if bulkBuf == "" {
          bulkFirst := env.first;
        }
        ghost var early := if full then Flushed(before, env.preTs) else [];
        assert sent == old(sent) + Wires(cfg, mac, early);
        BytesAdd(bulkBuf, rec);
        bulkBuf := bulkBuf + rec;
        if Expired(cfg, bulkBuf, bulkFirst, env.check) {
          WiresAppend(cfg, mac, early, Datagram(HEADER + bulkBuf, env.postTs));
          FlushBuffer(env.postTs);
        }
        return;
      }
      WiresAppend(cfg, mac, Flushed(bulkBuf, env.preTs), Datagram(mesg, env.postTs));
      FlushBuffer(env.preTs);
      Emit(mesg, env.postTs);
    }
  }

  lemma HeaderBytes()
    ensures ByteLen(HEADER) == 8
  {
    hide ByteLen;
    AsciiLen(HEADER);
  }

  lemma NoWires(cfg: Config, mac: Auth.Mac)
    ensures Wires(cfg, mac, []) == [] && ByteLen("") == 0
  {
  }

  lemma WiresOne(cfg: Config, mac: Auth.Mac, d: Datagram)
    ensures Wires(cfg, mac, [d]) == [Wire(cfg, mac, d)]
  {
    assert [d][..0] == [];
  }

  lemma WiresAppend(cfg: Config, mac: Auth.Mac, ds: seq<Datagram>, d: Datagram)
    ensures Wires(cfg, mac, ds + [d]) == Wires(cfg, mac, ds) + [Wire(cfg, mac, d)]
    ensures Wires(cfg, mac, [d]) == [Wire(cfg, mac, d)]
  {
    assert (ds + [d])[..|ds + [d]| - 1] == ds;
    WiresOne(cfg, mac, d);
  }
}
