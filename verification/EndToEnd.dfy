/** From the agent's messages to the broker's event queue: batching, signing, peeling, parsing and
    gating together mean the same as parsing every message by itself. */
module EndToEnd {
  import opened Wrappers
  import opened Octets
  import opened Text
  import opened Send
  import opened SendLaws
  import Auth
  import P = Parse
  import Json
  import Sequences

  // ---- the broker's ingest ----------------------------------------------------------------

  datatype Outgoing = Item(p: P.Parsed) | Label(board: nat, caption: string)

  // Flies take the sender's board; controls pass only when allowed.
  function Gate(items: seq<P.Parsed>, board: nat, ctrlOk: bool): seq<Outgoing> {
    if items == [] then []
    else
      Gate(items[..|items| - 1], board, ctrlOk) +
      match items[|items| - 1]
      case Fly(ev) => [Item(P.Fly(ev.(srcBoard := board)))]
      case Ctrl(c) => if ctrlOk then [Item(P.Ctrl(c))] else []
  }

  // The board a datagram's events belong to; peer is the board rule for the source address. None
  // means that strict mode drops the datagram.
  function BoardOf(strict: bool, board: Option<nat>, peer: Option<nat>): Option<nat> {
    if board.Some? then board
    else if peer.Some? then peer
    else if strict then None
    else Some(1)
  }

  function Received(dir: Auth.Directory, mac: Auth.Mac, rd: P.Reader, strict: bool, peer: Option<nat>,
                    text: string, now: int): seq<Outgoing>
  {
    match Auth.PeelOf(dir, mac, text, now)
    case Panic => []
    case Reject(_) => []
    case Accept(rest, id, board, authed) =>
      match BoardOf(strict, board, peer)
      case None => []
      case Some(b) => Gate(P.ParseText(rd, rest), b, !dir.ControlsNeedAuth() || authed)
  }

  // The caption of board b, if it is not the one it already shows.
  function Announced(b: nat, id: Option<string>, labels: map<nat, string>): seq<Outgoing> {
    match id
    case None => []
    case Some(caption) => if b in labels && labels[b] == caption then [] else [Label(b, caption)]
  }

  // The caption a datagram announces.
  function Caption(dir: Auth.Directory, mac: Auth.Mac, strict: bool, peer: Option<nat>, text: string, now: int,
                   labels: map<nat, string>): seq<Outgoing>
  {
    match Auth.PeelOf(dir, mac, text, now)
    case Panic => []
    case Reject(_) => []
    case Accept(rest, id, board, authed) =>
      match BoardOf(strict, board, peer)
      case None => []
      case Some(b) => Announced(b, id, labels)
  }

  function Relabel(labels: map<nat, string>, out: seq<Outgoing>): map<nat, string> {
    if out == [] then labels
    else
      var before := Relabel(labels, out[..|out| - 1]);
      match out[|out| - 1]
      case Label(b, caption) => before[b := caption]
      case Item(_) => before
  }

  class Ingest {
    const dir: Auth.AgentDirectory
    const mac: Auth.Mac
    const rd: P.Reader
    const strict: bool
    var lastLabels: map<nat, string>
    var queue: seq<Outgoing>
    // False once a datagram has made ingestion panic.
    var alive: bool

    constructor (dir: Auth.AgentDirectory, mac: Auth.Mac, rd: P.Reader, strict: bool)
      ensures this.dir == dir && this.mac == mac && this.rd == rd && this.strict == strict
      ensures lastLabels == map[] && queue == [] && alive
    {
      this.dir, this.mac, this.rd, this.strict := dir, mac, rd, strict;
      lastLabels, queue, alive := map[], [], true;
    }

    method Datagram(text: string, peer: Option<nat>, now: int)
      requires alive
      modifies this`lastLabels, this`queue, this`alive
      ensures alive <==> !Auth.PeelOf(dir.View(), mac, text, now).Panic?
      ensures queue == old(queue) + Caption(dir.View(), mac, strict, peer, text, now, old(lastLabels))
                     + Received(dir.View(), mac, rd, strict, peer, text, now)
      ensures lastLabels == Relabel(old(lastLabels), Caption(dir.View(), mac, strict, peer, text, now, old(lastLabels)))
    {
      hide Auth.PeelOf, P.ParseText, Gate, Auth.Directory.ControlsNeedAuth, Announced;
      var v := dir.Peel(mac, text, now);
      if v.Panic? {
        assert queue + [] + [] == queue;
        alive := false;
        return;
      }
      if v.Reject? {
        assert queue + [] + [] == queue;
        return;
      }
      var mapped := BoardOf(strict, v.board, peer);
      if mapped.None? {
        assert queue + [] + [] == queue;
        return;
      }
      var b := mapped.value;
      var ctrlOk := !dir.View().ControlsNeedAuth() || v.authed;
      Announce(b, v.agentId);
      var items := P.ParseDatagram(rd, v.rest);
      Enqueue(items, b, ctrlOk);
    }

    method Announce(b: nat, id: Option<string>)
      modifies this`lastLabels, this`queue
      ensures queue == old(queue) + Announced(b, id, old(lastLabels))
      ensures lastLabels == Relabel(old(lastLabels), Announced(b, id, old(lastLabels)))
    {
      if id.Some? && !(b in lastLabels && lastLabels[b] == id.value) {
        assert [Label(b, id.value)][..0] == [];
        lastLabels := lastLabels[b := id.value];
        queue := queue + [Label(b, id.value)];
      }
    }

    method Enqueue(items: seq<P.Parsed>, board: nat, ctrlOk: bool)
      modifies this`queue
      ensures queue == old(queue) + Gate(items, board, ctrlOk)
    {
      var i := 0;
      assert items[..0] == [];
      while i < |items|
        invariant 0 <= i <= |items|
        invariant queue == old(queue) + Gate(items[..i], board, ctrlOk)
      {
        assert items[..i + 1][..i] == items[..i] && items[..i + 1][i] == items[i];
        match items[i] {
          case Fly(ev) => queue := queue + [Item(P.Fly(ev.(srcBoard := board)))];
          case Ctrl(c) => if ctrlOk { queue := queue + [Item(P.Ctrl(c))]; }
        }
        i := i + 1;
      }
      assert items[..|items|] == items;
    }
  }

  lemma {:induction false} GateAppend(a: seq<P.Parsed>, b: seq<P.Parsed>, board: nat, ctrlOk: bool)
    ensures Gate(a + b, board, ctrlOk) == Gate(a, board, ctrlOk) + Gate(b, board, ctrlOk)
  {
    if b == [] {
      assert a + b == a;
    } else {
      var n := |b| - 1;
      GateAppend(a, b[..n], board, ctrlOk);
      assert (a + b)[..|a + b| - 1] == a + b[..n];
    }
  }

  lemma {:induction false} GateControls(items: seq<P.Parsed>, board: nat, i: nat)
    requires i < |Gate(items, board, false)|
    ensures Gate(items, board, false)[i].Item? && Gate(items, board, false)[i].p.Fly?
  {
    var n := |items| - 1;
    if i < |Gate(items[..n], board, false)| { GateControls(items[..n], board, i); }
  }

  /** Once a key is configured or authentication required, a control command enters the queue only
      from a timely datagram whose MAC verifies under a configured key. */
  lemma ControlsGated(dir: Auth.Directory, mac: Auth.Mac, rd: P.Reader, strict: bool, peer: Option<nat>,
                      text: string, now: int, i: nat)
    requires dir.ControlsNeedAuth() && Auth.In64(now)
    requires var q := Received(dir, mac, rd, strict, peer, text, now); i < |q| && q[i].Item? && q[i].p.Ctrl?
    ensures exists id: string, ts: int ::
              id in dir.keys && Auth.Timely(now, ts) && Auth.HEADER <= text && |Auth.Fields(text)| == 3
              && Auth.Unhex32(Trim(Auth.Fields(text)[2]))
                 == Auth.Whole(mac(dir.keys[id], Auth.Signed(id, ts, Auth.Rest(text))))
  {
    hide Auth.PeelOf, P.ParseText, Gate, Auth.Timely;
    var v := Auth.PeelOf(dir, mac, text, now);
    if !v.authed {
      GateControls(P.ParseText(rd, v.rest), BoardOf(strict, v.board, peer).value, i);
    }
    Auth.AuthedHasMac(dir, mac, text, now);
  }

  // ---- batching changes no meaning -----------------------------------------------------------

  // A fly message is the header and one record line, newline-terminated; any other message is free.
  predicate Good(m: string) {
    HEADER <= m ==> |m| > |HEADER| && m[|m| - 1] == '\n' && P.RecordLine(m[|HEADER|..|m| - 1])
  }

  predicate AllRecords(ls: seq<string>) { forall i :: 0 <= i < |ls| ==> P.RecordLine(ls[i]) }

  function Meaning(rd: P.Reader, ms: seq<string>): seq<P.Parsed> {
    if ms == [] then [] else Meaning(rd, ms[..|ms| - 1]) + P.ParseText(rd, ms[|ms| - 1])
  }

  lemma MeaningSnoc(rd: P.Reader, ms: seq<string>, m: string)
    ensures Meaning(rd, ms + [m]) == Meaning(rd, ms) + P.ParseText(rd, m)
    ensures Meaning(rd, [m]) == P.ParseText(rd, m)
  {
    hide P.ParseText;
    assert (ms + [m])[..|ms + [m]| - 1] == ms && [m][..0] == [];
    assert [] + P.ParseText(rd, m) == P.ParseText(rd, m);
  }

  lemma MeaningNone(rd: P.Reader, ms: seq<string>)
    ensures Meaning(rd, []) == [] && ms + [] == ms && Meaning(rd, ms) + [] == Meaning(rd, ms)
  {
  }

  lemma {:induction false} MeaningAppend(rd: P.Reader, a: seq<string>, b: seq<string>)
    ensures Meaning(rd, a + b) == Meaning(rd, a) + Meaning(rd, b)
  {
    hide P.ParseText, Meaning;
    if b == [] {
      MeaningNone(rd, a);
    } else {
      var n := |b| - 1;
      MeaningAppend(rd, a, b[..n]);
      assert a + b == (a + b[..n]) + [b[n]] && b == b[..n] + [b[n]];
      MeaningSnoc(rd, a + b[..n], b[n]);
      MeaningSnoc(rd, b[..n], b[n]);
      assert (Meaning(rd, a) + Meaning(rd, b[..n])) + P.ParseText(rd, b[n])
          == Meaning(rd, a) + (Meaning(rd, b[..n]) + P.ParseText(rd, b[n]));
    }
  }

  lemma {:induction false} LinesSnoc(rd: P.Reader, ls: seq<string>, l: string)
    ensures P.Lines(ls + [l]) == P.Lines(ls) + (l + "\n")
    ensures P.ItemsOf(rd, ls + [l]) == P.ItemsOf(rd, ls) + P.RecordItems(rd, l)
  {
    hide P.RecordItems;
    if ls == [] {
      assert [] + [l] == [l] && [l][1..] == [];
      assert P.Lines([l]) == l + "\n" + P.Lines([]) && P.ItemsOf(rd, [l]) == P.RecordItems(rd, l) + P.ItemsOf(rd, []);
      assert P.ItemsOf(rd, ls) + P.RecordItems(rd, l) == P.RecordItems(rd, l) == P.RecordItems(rd, l) + [];
      assert P.Lines(ls) + (l + "\n") == l + "\n" == l + "\n" + "";
    } else {
      LinesSnoc(rd, ls[1..], l);
      assert (ls + [l])[1..] == ls[1..] + [l] && (ls + [l])[0] == ls[0];
      assert ls[0] + "\n" + (P.Lines(ls[1..]) + (l + "\n")) == (ls[0] + "\n" + P.Lines(ls[1..])) + (l + "\n");
      assert P.RecordItems(rd, ls[0]) + (P.ItemsOf(rd, ls[1..]) + P.RecordItems(rd, l))
          == (P.RecordItems(rd, ls[0]) + P.ItemsOf(rd, ls[1..])) + P.RecordItems(rd, l);
    }
  }

  lemma EmptyLines(ls: seq<string>)
    ensures P.Lines(ls) == "" <==> ls == []
  {
  }

  lemma FlushedMeans(rd: P.Reader, ls: seq<string>, ts: int)
    requires AllRecords(ls)
    ensures Meaning(rd, Payloads(Flushed(P.Lines(ls), ts))) == P.ItemsOf(rd, ls)
  {
    hide P.ParseText, P.RecordItems;
    EmptyLines(ls);
    if ls != [] {
      assert Payloads(Flushed(P.Lines(ls), ts)) == [HEADER + P.Lines(ls)];
      MeaningSnoc(rd, [], HEADER + P.Lines(ls));
      P.BulkParses(rd, ls);
    }
  }

  // The record line of a fly message, and what the message means by itself.
  lemma FlyMessage(rd: P.Reader, m: string)
    requires HEADER <= m && Good(m)
    ensures var l := m[|HEADER|..|m| - 1];
            m[|HEADER|..] == l + "\n" && P.ParseText(rd, m) == P.RecordItems(rd, l)
  {
    hide *;
    FlyText(m);
    var l := m[|HEADER|..|m| - 1];
    OneLine(rd, l);
    P.BulkParses(rd, [l]);
  }

  lemma FlyText(m: string)
    requires HEADER <= m && Good(m)
    ensures |HEADER| < |m|
    ensures var l := m[|HEADER|..|m| - 1];
            P.RecordLine(l) && m == "PACKTER\n" + (l + "\n") && m[|HEADER|..] == l + "\n"
  {
    hide P.RecordLine;
    var n := |m| - 1;
    assert [m[n]] == "\n";
    assert m[|HEADER|..] == m[|HEADER|..n] + [m[n]];
    assert m == m[..|HEADER|] + m[|HEADER|..];
  }

  lemma OneLine(rd: P.Reader, l: string)
    ensures P.Lines([l]) == l + "\n" && P.ItemsOf(rd, [l]) == P.RecordItems(rd, l)
  {
    hide P.RecordItems;
    assert [l][1..] == [];
    assert P.Lines([l]) == l + "\n" + P.Lines([]);
    assert P.ItemsOf(rd, [l]) == P.RecordItems(rd, l) + P.ItemsOf(rd, []);
  }

  // The record lines a step leaves in the buffer, given those it held.
  function NextLines(cfg: Config, st: State, e: Event, ls: seq<string>): seq<string> {
    match e
    case Flush(_) => []
    case Send(m, env) =>
      if st.rate != 1 then ls
      else if cfg.bulkMs > 0 && HEADER <= m && ByteLen(m[|HEADER|..]) <= BULK_PAYLOAD then
        var kept := if ByteLen(st.buf) + ByteLen(m[|HEADER|..]) > BULK_PAYLOAD then [] else ls;
        if Step(cfg, st, e).0.buf == "" then [] else kept + [if Good(m) then m[|HEADER|..|m| - 1] else ""]
      else []
  }

  lemma NothingMeant(rd: P.Reader)
    ensures P.ItemsOf(rd, []) == [] && P.Lines([]) == "" && Meaning(rd, Payloads([])) == []
  {
  }

  /** One step: what it emits and what it keeps mean what it held and the message it let through. */
  lemma StepMeans(cfg: Config, rd: P.Reader, st: State, e: Event, ls: seq<string>)
    requires st.buf == P.Lines(ls) && AllRecords(ls) && (e.Send? ==> Good(e.mesg))
    ensures var (s, ds) := Step(cfg, st, e);
            var ls' := NextLines(cfg, st, e, ls);
            && s.buf == P.Lines(ls') && AllRecords(ls')
            && Meaning(rd, Payloads(ds)) + P.ItemsOf(rd, ls')
               == P.ItemsOf(rd, ls) + if e.Send? && st.rate == 1 then P.ParseText(rd, e.mesg) else []
  {
    hide ByteLen, Expired, Rate, P.ParseText, P.RecordItems, P.Lines, P.ItemsOf, Meaning, P.RecordLine;
    NothingMeant(rd);
    match e
    case Flush(ts) =>
      FlushedMeans(rd, ls, ts);
    case Send(m, env) =>
      if st.rate == 1 {
        if cfg.bulkMs > 0 && HEADER <= m && ByteLen(m[|HEADER|..]) <= BULK_PAYLOAD {
          RecordStep(cfg, rd, st, m, env, ls);
        } else {
          FlushedMeans(rd, ls, env.preTs);
          var fs, d := Flushed(st.buf, env.preTs), Datagram(m, env.postTs);
          PayloadsAppend(fs, [d]);
          assert Payloads([d]) == [m];
          MeaningSnoc(rd, Payloads(fs), m);
        }
      }
  }

  lemma RecordStep(cfg: Config, rd: P.Reader, st: State, m: string, env: Env, ls: seq<string>)
    requires st.buf == P.Lines(ls) && AllRecords(ls) && Good(m) && st.rate == 1
    requires cfg.bulkMs > 0 && HEADER <= m && ByteLen(m[|HEADER|..]) <= BULK_PAYLOAD
    ensures var (s, ds) := Step(cfg, st, Send(m, env));
            var ls' := NextLines(cfg, st, Send(m, env), ls);
            && s.buf == P.Lines(ls') && AllRecords(ls')
            && Meaning(rd, Payloads(ds)) + P.ItemsOf(rd, ls') == P.ItemsOf(rd, ls) + P.ParseText(rd, m)
  {
    hide ByteLen, Expired, Rate, P.ParseText, P.RecordItems, P.Lines, P.ItemsOf, Meaning;
    var l := m[|HEADER|..|m| - 1];
    FlyMessage(rd, m);
    NothingMeant(rd);
    var full := ByteLen(st.buf) + ByteLen(m[|HEADER|..]) > BULK_PAYLOAD;
    var kept := if full then [] else ls;
    var early := if full then Flushed(st.buf, env.preTs) else [];
    FlushedMeans(rd, ls, env.preTs);
    LinesSnoc(rd, kept, l);
    EmptyLines(kept + [l]);
    FlushedMeans(rd, kept + [l], env.postTs);
    PayloadsAppend(early, Flushed(P.Lines(kept + [l]), env.postTs));
    MeaningAppend(rd, Payloads(early), Payloads(Flushed(P.Lines(kept + [l]), env.postTs)));
    assert Meaning(rd, Payloads(early)) + P.ItemsOf(rd, kept) == P.ItemsOf(rd, ls);
    Regroup3(Meaning(rd, Payloads(early)), P.ItemsOf(rd, kept), P.RecordItems(rd, l));
  }

  lemma Regroup3(a: seq<P.Parsed>, b: seq<P.Parsed>, c: seq<P.Parsed>)
    ensures a + (b + c) == (a + b) + c && (a + (b + c)) + [] == a + (b + c)
  {
  }

  // The record lines in the buffer after a run.
  function HeldLines(cfg: Config, st: State, evs: seq<Event>): seq<string> {
    if evs == [] then []
    else
      var before := evs[..|evs| - 1];
      NextLines(cfg, Run(cfg, st, before).0, evs[|evs| - 1], HeldLines(cfg, st, before))
  }

  predicate AllGood(evs: seq<Event>) { forall i :: 0 <= i < |evs| && evs[i].Send? ==> Good(evs[i].mesg) }

  /** Over every run, parsing each emitted payload and then the buffer gives exactly what parsing each
      message let through by itself gives, in the same order. */
  lemma {:induction false} BatchingKeepsMeaning(cfg: Config, rd: P.Reader, st: State, evs: seq<Event>)
    requires st.buf == "" && AllGood(evs)
    ensures var (s, ds) := Run(cfg, st, evs);
            var ls := HeldLines(cfg, st, evs);
            && s.buf == P.Lines(ls) && AllRecords(ls)
            && Meaning(rd, Payloads(ds)) + P.ItemsOf(rd, ls) == Meaning(rd, Passed(cfg, st, evs))
  {
    NothingMeant(rd);
    if evs == [] {
    } else {
      var before, e := evs[..|evs| - 1], evs[|evs| - 1];
      assert AllGood(before) && (e.Send? ==> Good(e.mesg));
      BatchingKeepsMeaning(cfg, rd, st, before);
      var (s, ds) := Run(cfg, st, before);
      var ls := HeldLines(cfg, st, before);
      hide Step, NextLines, P.ItemsOf, P.Lines, P.ParseText, Meaning, Payloads, AllGood, Good, AllRecords;
      StepMeans(cfg, rd, s, e, ls);
      var (s', more) := Step(cfg, s, e);
      PayloadsAppend(ds, more);
      MeaningAppend(rd, Payloads(ds), Payloads(more));
      var passed := Passed(cfg, st, before);
      if e.Send? && s.rate == 1 { MeaningSnoc(rd, passed, e.mesg); }
      MeaningNone(rd, passed);
      Sequences.Exchange(Meaning(rd, Payloads(ds)), P.ItemsOf(rd, ls), Meaning(rd, Payloads(more)),
            P.ItemsOf(rd, NextLines(cfg, s, e, ls)), if e.Send? && s.rate == 1 then P.ParseText(rd, e.mesg) else []);
    }
  }

  // ---- through the signature to the queue --------------------------------------------------------

  // What the broker queues for the datagrams ds, arriving at the times nows.
  function ReceivedAll(cfg: Config, dir: Auth.Directory, mac: Auth.Mac, rd: P.Reader, strict: bool, peer: Option<nat>,
                       ds: seq<Datagram>, nows: seq<int>): seq<Outgoing>
    requires |nows| == |ds|
  {
    if ds == [] then []
    else
      var n := |ds| - 1;
      ReceivedAll(cfg, dir, mac, rd, strict, peer, ds[..n], nows[..n])
      + Received(dir, mac, rd, strict, peer, Wire(cfg, mac, ds[n]), nows[n])
  }

  // Signed by an agent the broker knows, small enough for the agent's MAC buffer, and in time.
  ghost predicate Deliverable(cfg: Config, dir: Auth.Directory, d: Datagram, now: int) {
    && 0 <= d.ts < 10_000_000_000 && Auth.In64(now) && Auth.Timely(now, d.ts)
    && |Auth.Signed(cfg.id, d.ts, d.payload)| <= Auth.MAC_LIMIT
  }

  ghost predicate Known(cfg: Config, dir: Auth.Directory, mac: Auth.Mac) {
    Auth.IdValid(cfg.id) && cfg.psk != [] && cfg.id in dir.keys && dir.keys[cfg.id] == cfg.psk && Auth.Hash32(mac)
  }

  // The board all of the agent's events go to.
  function AgentBoard(cfg: Config, dir: Auth.Directory, strict: bool, peer: Option<nat>): Option<nat> {
    BoardOf(strict, Auth.Board(dir, cfg.id), peer)
  }

  lemma OneReceived(cfg: Config, dir: Auth.Directory, mac: Auth.Mac, rd: P.Reader, strict: bool, peer: Option<nat>,
                    d: Datagram, now: int)
    requires Known(cfg, dir, mac) && Deliverable(cfg, dir, d, now) && AgentBoard(cfg, dir, strict, peer).Some?
    ensures Received(dir, mac, rd, strict, peer, Wire(cfg, mac, d), now)
         == Gate(P.ParseText(rd, d.payload), AgentBoard(cfg, dir, strict, peer).value, true)
    ensures !Auth.PeelOf(dir, mac, Wire(cfg, mac, d), now).Panic?
  {
    hide Auth.PeelOf, Auth.AgentLine, Gate, P.ParseText, Auth.Signed, Auth.Timely;
    Auth.ShortSignedPeels(dir, mac, cfg.id, d.ts, d.payload, now);
  }

  lemma {:induction false} AllReceived(cfg: Config, dir: Auth.Directory, mac: Auth.Mac, rd: P.Reader, strict: bool,
                                       peer: Option<nat>, ds: seq<Datagram>, nows: seq<int>)
    requires Known(cfg, dir, mac) && AgentBoard(cfg, dir, strict, peer).Some? && |nows| == |ds|
    requires forall i :: 0 <= i < |ds| ==> Deliverable(cfg, dir, ds[i], nows[i])
    ensures ReceivedAll(cfg, dir, mac, rd, strict, peer, ds, nows)
         == Gate(Meaning(rd, Payloads(ds)), AgentBoard(cfg, dir, strict, peer).value, true)
  {
    hide *;
    if ds == [] {
      NothingReceived(cfg, dir, mac, rd, strict, peer, nows);
    } else {
      var n, b := |ds| - 1, AgentBoard(cfg, dir, strict, peer).value;
      var d, meant := ds[n], Meaning(rd, Payloads(ds[..n]));
      assert ds == ds[..n] + [d];
      assert forall i :: 0 <= i < n ==> ds[..n][i] == ds[i] && nows[..n][i] == nows[i];
      AllReceived(cfg, dir, mac, rd, strict, peer, ds[..n], nows[..n]);
      OneReceived(cfg, dir, mac, rd, strict, peer, d, nows[n]);
      ReceivedSnoc(cfg, dir, mac, rd, strict, peer, ds, nows);
      PayloadsAppend(ds[..n], [d]);
      OnePayload(d);
      MeaningSnoc(rd, Payloads(ds[..n]), d.payload);
      GateAppend(meant, P.ParseText(rd, d.payload), b, true);
    }
  }

  lemma OnePayload(d: Datagram)
    ensures Payloads([d]) == [d.payload]
  {
  }

  lemma NothingReceived(cfg: Config, dir: Auth.Directory, mac: Auth.Mac, rd: P.Reader, strict: bool,
                        peer: Option<nat>, nows: seq<int>)
    requires nows == [] && AgentBoard(cfg, dir, strict, peer).Some?
    ensures ReceivedAll(cfg, dir, mac, rd, strict, peer, [], nows)
         == Gate(Meaning(rd, Payloads([])), AgentBoard(cfg, dir, strict, peer).value, true)
  {
  }

  lemma ReceivedSnoc(cfg: Config, dir: Auth.Directory, mac: Auth.Mac, rd: P.Reader, strict: bool,
                     peer: Option<nat>, ds: seq<Datagram>, nows: seq<int>)
    requires ds != [] && |nows| == |ds|
    ensures var n := |ds| - 1;
            ReceivedAll(cfg, dir, mac, rd, strict, peer, ds, nows)
            == ReceivedAll(cfg, dir, mac, rd, strict, peer, ds[..n], nows[..n])
               + Received(dir, mac, rd, strict, peer, Wire(cfg, mac, ds[n]), nows[n])
  {
  }

  /** End to end, over every run of messages, flush schedule and clock: what the broker queues from the
      signed datagrams, followed by what the agent still buffers, is exactly what parsing each message
      let through by itself gives, in order, on the agent's board and with its controls admitted. */
  lemma EndToEnd(cfg: Config, dir: Auth.Directory, mac: Auth.Mac, rd: P.Reader, strict: bool, peer: Option<nat>,
                 st: State, evs: seq<Event>, nows: seq<int>)
    requires st.buf == "" && AllGood(evs) && Known(cfg, dir, mac) && AgentBoard(cfg, dir, strict, peer).Some?
    requires var ds := Run(cfg, st, evs).1;
             |nows| == |ds| && forall i :: 0 <= i < |ds| ==> Deliverable(cfg, dir, ds[i], nows[i])
    ensures var (s, ds) := Run(cfg, st, evs);
            var b := AgentBoard(cfg, dir, strict, peer).value;
            ReceivedAll(cfg, dir, mac, rd, strict, peer, ds, nows) + Gate(P.ParseText(rd, HEADER + s.buf), b, true)
            == Gate(Meaning(rd, Passed(cfg, st, evs)), b, true)
  {
    hide Run, Gate, P.ParseText, Known, Deliverable, AgentBoard, Meaning, ReceivedAll, P.Lines, P.ItemsOf, Passed, AllGood;
    var (s, ds) := Run(cfg, st, evs);
    var ls := HeldLines(cfg, st, evs);
    BatchingKeepsMeaning(cfg, rd, st, evs);
    AllReceived(cfg, dir, mac, rd, strict, peer, ds, nows);
    P.BulkParses(rd, ls);
    GateAppend(Meaning(rd, Payloads(ds)), P.ItemsOf(rd, ls), AgentBoard(cfg, dir, strict, peer).value, true);
  }

  /** Every datagram of a run is deliverable in size: bulk datagrams always, and messages sent as they
      came whenever they are within the agent's 1023-octet message buffers. */
  lemma SizesDeliver(cfg: Config, st: State, evs: seq<Event>, i: nat)
    requires st.buf == "" && ByteLen(cfg.id) <= 63
    requires forall k :: 0 <= k < |Passed(cfg, st, evs)| ==> ByteLen(Passed(cfg, st, evs)[k]) <= 1023
    requires i < |Run(cfg, st, evs).1| && 0 <= Run(cfg, st, evs).1[i].ts < 10_000_000_000
    ensures var d := Run(cfg, st, evs).1[i]; |Auth.Signed(cfg.id, d.ts, d.payload)| <= Auth.MAC_LIMIT
  {
    hide Run, Passed, ByteLen, Auth.Signed;
    var d := Run(cfg, st, evs).1[i];
    BulkBounded(cfg, st, evs);
    TextSize(cfg.id, d.ts, d.payload);
  }
}
