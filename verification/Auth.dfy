/** The PACKTERAGENT line: the agent's identification and MAC, and the broker's peeling of it. The MAC
    is a parameter; Hash32 asks only that it yields 32 octets, as HMAC-SHA-256 does. */
module Auth {
  import opened Wrappers
  import opened Hexadecimal
  import opened Octets
  import opened Text
  import Sequences

  const HEADER := "PACKTERAGENT "
  const REPLAY_WINDOW_SECS := 300
  const MAC_LIMIT := 2048

  type Mac = (Bytes, Bytes) -> Bytes

  ghost predicate Hash32(mac: Mac) { forall k, m {:trigger mac(k, m)} :: |mac(k, m)| == 32 }

  // ---- hexadecimal ----------------------------------------------------------------------

  function Hex(b: Bytes): (s: string)
    ensures |s| == 2 * |b|
  {
    if b == [] then "" else [HexDigit(b[0] as nat / 16), HexDigit(b[0] as nat % 16)] + Hex(b[1..])
  }

  // u8::from_str_radix(.., 16) of two characters: a leading plus is accepted.
  function HexPair(a: char, b: char): Option<u8> {
    match (HexValue(a), HexValue(b))
    case (Some(x), Some(y)) => if x < 16 && y < 16 then Some((16 * x + y) as u8) else None
    case (None, Some(y)) => if a == '+' && y < 16 then Some(y as u8) else None
    case _ => None
  }

  // What the broker's decoder makes of a text: octets, no octets, or a panic, when it slices the text
  // inside a character.
  datatype Decoded = Whole(b: Bytes) | Malformed | Panics

  // The slice of the next two octets: inside a character, not two digits, or an octet.
  datatype Pair = Inside | NoDigits | Digits(b: u8)

  function FirstPair(s: string): Pair
    requires s != ""
  {
    var n := |Utf8Char(s[0])|;
    if n > 2 then Inside
    else if n == 2 || |s| == 1 then NoDigits
    else if |Utf8Char(s[1])| > 1 then Inside
    else match HexPair(s[0], s[1]) case None => NoDigits case Some(b) => Digits(b)
  }

  function Then(out: Bytes, d: Decoded): Decoded { if d.Whole? then Whole(out + d.b) else d }

  function Unhex(s: string): Decoded {
    if s == "" then Whole([])
    else
      match FirstPair(s)
      case Inside => Panics
      case NoDigits => Malformed
      case Digits(b) => Then([b], Unhex(s[2..]))
  }

  function Unhex32(s: string): Decoded {
    if ByteLen(s) != 64 then Malformed else Unhex(s)
  }

  lemma PairIsAscii(s: string)
    requires s != "" && FirstPair(s).Digits?
    ensures |s| >= 2 && ByteLen(s) == 2 + ByteLen(s[2..])
  {
    Utf8Cons(s);
    Utf8Cons(s[1..]);
    assert s[1..][0] == s[1] && s[1..][1..] == s[2..];
    hide Utf8, HexPair;
  }

  lemma ThenStep(out: Bytes, b: u8, d: Decoded)
    ensures Then(out, Then([b], d)) == Then(out + [b], d)
  {
  }

  // The next two octets of the text, as its own slice bounds see them.
  method HexDecode32(s: string) returns (r: Decoded)
    ensures r == Unhex32(s)
  {
    hide FirstPair, ByteLen;
    if ByteLen(s) != 64 {
      return Malformed;
    }
    var out: Bytes := [];
    var rest := s;
    assert ByteLen("") == 0 && Then([], Unhex(s)) == Unhex(s) by { NoOctets(s); }
    var i := 0;
    while i < 32
      invariant 0 <= i <= 32 && ByteLen(rest) == 64 - 2 * i
      invariant Then(out, Unhex(rest)) == Unhex(s)
    {
      var pair := FirstPair(rest);
      if pair.Inside? {
        return Panics;
      }
      if pair.NoDigits? {
        return Malformed;
      }
      PairIsAscii(rest);
      ThenStep(out, pair.b, Unhex(rest[2..]));
      out := out + [pair.b];
      rest := rest[2..];
      i := i + 1;
    }
    SomeOctets(rest);
    assert out + [] == out;
    r := Whole(out);
  }

  lemma NoOctets(s: string)
    ensures ByteLen("") == 0 && Then([], Unhex(s)) == Unhex(s)
  {
    hide Unhex;
    assert Unhex(s).Whole? ==> [] + Unhex(s).b == Unhex(s).b;
  }

  lemma SomeOctets(s: string)
    ensures ByteLen(s) == 0 ==> s == ""
  {
  }

  // The first two octets of t end inside a character.
  predicate Straddles(t: string) {
    t != "" && (|Utf8Char(t[0])| > 2 || (|Utf8Char(t[0])| == 1 && |t| > 1 && |Utf8Char(t[1])| > 1))
  }

  predicate DigitPairs(t: string, n: nat)
    requires 2 * n <= |t|
  {
    forall k :: 0 <= k < n ==> HexPair(t[2 * k], t[2 * k + 1]).Some?
  }

  lemma PairsAhead(s: string, n: nat)
    requires s != "" && FirstPair(s).Digits? && 2 * n + 2 <= |s|
    ensures DigitPairs(s, n + 1) <==> DigitPairs(s[2..], n)
  {
    var t := s[2..];
    assert HexPair(s[2 * 0], s[2 * 0 + 1]).Some?;
    hide HexPair, Utf8Char, FirstPair;
    assert forall k :: 0 <= k < n ==> t[2 * k] == s[2 * k + 2] && t[2 * k + 1] == s[2 * k + 3];
    if DigitPairs(s, n + 1) {
      forall k | 0 <= k < n
        ensures HexPair(t[2 * k], t[2 * k + 1]).Some?
      {
        assert HexPair(s[2 * (k + 1)], s[2 * (k + 1) + 1]).Some?;
      }
    }
    if DigitPairs(t, n) {
      forall k | 0 <= k < n + 1
        ensures HexPair(s[2 * k], s[2 * k + 1]).Some?
      {
        if k > 0 { assert HexPair(t[2 * (k - 1)], t[2 * (k - 1) + 1]).Some?; }
      }
    }
  }

  // Where the panic is, behind how many good pairs.
  lemma {:induction false} PanicPlace(s: string) returns (i: nat)
    requires Unhex(s).Panics?
    ensures 2 * i < |s| && DigitPairs(s, i) && Straddles(s[2 * i..])
  {
    if FirstPair(s).Digits? {
      var j := PanicPlace(s[2..]);
      i := j + 1;
      hide FirstPair, HexPair, Utf8Char, Unhex;
      PairsAhead(s, j);
      assert s[2..][2 * j..] == s[2 * i..];
    } else {
      i := 0;
      assert s[0..] == s;
    }
  }

  lemma DigitsFirst(s: string)
    requires |s| >= 2 && HexPair(s[0], s[1]).Some?
    ensures FirstPair(s).Digits?
  {
  }

  lemma {:induction false} PlacePanics(s: string, i: nat)
    requires 2 * i < |s| && DigitPairs(s, i) && Straddles(s[2 * i..])
    ensures Unhex(s).Panics?
    decreases i
  {
    if i == 0 {
      assert s[0..] == s;
    } else {
      assert HexPair(s[2 * 0], s[2 * 0 + 1]).Some?;
      DigitsFirst(s);
      hide FirstPair, HexPair, Utf8Char;
      PairsAhead(s, i - 1);
      assert s[2..][2 * (i - 1)..] == s[2 * i..];
      PlacePanics(s[2..], i - 1);
    }
  }

  /** The decoder panics exactly on the texts of 64 octets that have, behind good pairs only, two octets
      that end inside a character. */
  lemma PanicsIff(s: string)
    ensures Unhex32(s).Panics?
       <==> ByteLen(s) == 64 && exists i: nat :: 2 * i < |s| && DigitPairs(s, i) && Straddles(s[2 * i..])
  {
    hide ByteLen, DigitPairs, Straddles, Unhex;
    if Unhex32(s).Panics? { var i := PanicPlace(s); }
    if ByteLen(s) == 64 && exists i: nat :: 2 * i < |s| && DigitPairs(s, i) && Straddles(s[2 * i..]) {
      var i: nat :| 2 * i < |s| && DigitPairs(s, i) && Straddles(s[2 * i..]);
      PlacePanics(s, i);
    }
  }

  // The broker's comparison looks at every octet before it answers; diff counts where the original
  // accumulates the differing bits.
  method CtEq(a: Bytes, b: Bytes) returns (eq: bool)
    ensures eq <==> a == b
  {
    if |a| != |b| {
      return false;
    }
    var diff := 0;
    var i := 0;
    while i < |a|
      invariant 0 <= i <= |a| && 0 <= diff
      invariant diff == 0 <==> a[..i] == b[..i]
    {
      diff := diff + if a[i] == b[i] then 0 else 1;
      assert a[..i + 1] == a[..i] + [a[i]] && b[..i + 1] == b[..i] + [b[i]];
      i := i + 1;
    }
    assert a[..|a|] == a && b[..|a|] == b;
    eq := diff == 0;
  }

  lemma HexPairReads(b: u8)
    ensures HexPair(HexDigit(b as nat / 16), HexDigit(b as nat % 16)) == Some(b)
  {
  }

  /** Hexadecimal decoding undoes the agent's encoding. */
  lemma {:induction false} HexRoundTrip(b: Bytes)
    ensures Unhex(Hex(b)) == Whole(b) && Ascii(Hex(b)) && NoSpace(Hex(b)) && ',' !in Hex(b) && '\n' !in Hex(b)
  {
    hide *;
    if b == [] {
      NoHex();
    } else {
      var x, y, t := HexDigit(b[0] as nat / 16), HexDigit(b[0] as nat % 16), Hex(b[1..]);
      HexRoundTrip(b[1..]);
      HexPairReads(b[0]);
      HexInk(b[0]);
      HexCons(b);
      DigitsFirst([x, y] + t);
      UnhexStep([x, y] + t, b[0]);
      InkJoins([x, y], t);
      assert ([x, y] + t)[2..] == t && [b[0]] + b[1..] == b;
    }
  }

  lemma NoHex()
    ensures Hex([]) == "" && Unhex("") == Whole([]) && Ascii("") && NoSpace("")
  {
  }

  lemma HexCons(b: Bytes)
    requires b != []
    ensures Hex(b) == [HexDigit(b[0] as nat / 16), HexDigit(b[0] as nat % 16)] + Hex(b[1..])
  {
    hide HexDigit;
  }

  lemma UnhexStep(s: string, b: u8)
    requires s != "" && FirstPair(s).Digits? && |s| >= 2 && HexPair(s[0], s[1]) == Some(b)
    ensures Unhex(s) == (if Unhex(s[2..]).Whole? then Whole([b] + Unhex(s[2..]).b) else Unhex(s[2..]))
  {
    hide HexPair, Utf8Char;
  }

  lemma InkJoins(a: string, b: string)
    requires Ascii(a) && NoSpace(a) && Ascii(b) && NoSpace(b)
    ensures Ascii(a + b) && NoSpace(a + b)
  {
    hide IsWhitespace;
  }

  lemma HexSized(b: Bytes)
    requires |b| == 32
    ensures Unhex32(Hex(b)) == Whole(b)
  {
    HexRoundTrip(b);
    hide Unhex, Hex, ByteLen;
    AsciiLen(Hex(b));
  }

  lemma HexInk(b: u8)
    ensures Ascii([HexDigit(b as nat / 16), HexDigit(b as nat % 16)])
    ensures NoSpace([HexDigit(b as nat / 16), HexDigit(b as nat % 16)])
    ensures HexDigit(b as nat / 16) != ',' && HexDigit(b as nat % 16) != ','
    ensures HexDigit(b as nat / 16) != '\n' && HexDigit(b as nat % 16) != '\n'
  {
  }

  // ---- the agent ---------------------------------------------------------------------------

  function Signed(id: string, ts: int, payload: string): Bytes {
    Utf8(id + "," + PrintInt(ts) + "\n" + payload)
  }

  // pt_hmac_sha256 takes in at most 2048 octets of message.
  function AgentMac(mac: Mac, psk: Bytes, m: Bytes): Bytes {
    mac(psk, if |m| > MAC_LIMIT then m[..MAC_LIMIT] else m)
  }

  function AgentLine(mac: Mac, id: string, psk: Bytes, ts: int, payload: string): string {
    if psk == [] then HEADER + id + "\n"
    else HEADER + id + "," + PrintInt(ts) + "," + Hex(AgentMac(mac, psk, Signed(id, ts, payload))) + "\n"
  }

  // ---- the broker -----------------------------------------------------------------------------

  datatype Verdict =
    | Accept(rest: string, agentId: Option<string>, board: Option<nat>, authed: bool)
    | Reject(reason: string)
    | Panic

  datatype Directory = Directory(boards: map<string, nat>, keys: map<string, Bytes>, requireAuth: bool) {
    predicate ControlsNeedAuth() { keys != map[] || requireAuth }
  }

  function Board(dir: Directory, id: string): Option<nat> {
    if id in dir.boards then Some(dir.boards[id]) else None
  }

  function Fields(text: string): seq<string>
    requires HEADER <= text
  {
    var line := SplitLine(text).0;
    if |line| < |HEADER| then [""] else Split(line[|HEADER|..], ',')
  }

  function Rest(text: string): string { SplitLine(text).1 }

  // ---- the replay window, in 64-bit arithmetic --------------------------------------------------

  predicate In64(x: int) { -0x8000_0000_0000_0000 <= x < 0x8000_0000_0000_0000 }

  // What a 64-bit subtraction leaves of its exact result.
  function Wrap64(x: int): int { (x + 0x8000_0000_0000_0000) % 0x1_0000_0000_0000_0000 - 0x8000_0000_0000_0000 }

  // The least 64-bit integer has no 64-bit absolute value and stays as it is.
  function Abs64(x: int): int { if x < 0 && x != -0x8000_0000_0000_0000 then -x else x }

  predicate Fresh(nowUnix: int, ts: int) { Abs64(Wrap64(nowUnix - ts)) <= REPLAY_WINDOW_SECS }

  // Within 300 s, or so far apart that the difference wraps to the least integer or to within 300.
  predicate Timely(nowUnix: int, ts: int) {
    var d := if nowUnix < ts then ts - nowUnix else nowUnix - ts;
    d <= REPLAY_WINDOW_SECS || d == 0x8000_0000_0000_0000 || d >= 0x1_0000_0000_0000_0000 - REPLAY_WINDOW_SECS
  }

  /** The program's test of a timestamp, for every 64-bit clock and timestamp. */
  lemma FreshIff(nowUnix: int, ts: int)
    requires In64(nowUnix) && In64(ts)
    ensures Fresh(nowUnix, ts) <==> Timely(nowUnix, ts)
  {
    var d, m := nowUnix - ts, 0x1_0000_0000_0000_0000;
    assert Wrap64(d) == if d < -0x8000_0000_0000_0000 then d + m else if d >= 0x8000_0000_0000_0000 then d - m else d;
    hide Wrap64;
  }

  /** Short of the last 300 s of the clock's range one stray timestamp passes, 2^63 s in the past. */
  lemma TimelyNow(nowUnix: int, ts: int)
    requires 0 <= nowUnix < 0x8000_0000_0000_0000 - REPLAY_WINDOW_SECS && In64(ts)
    ensures Timely(nowUnix, ts)
       <==> -REPLAY_WINDOW_SECS <= nowUnix - ts <= REPLAY_WINDOW_SECS || ts == nowUnix - 0x8000_0000_0000_0000
  {
  }

  // The fields of a keyed agent's line, checked.
  function CheckSigned(mac: Mac, id: string, key: Bytes, fields: seq<string>, rest: string, nowUnix: int,
                       passed: Verdict): Verdict
  {
    if |fields| != 3 then Reject("agent has key but datagram is unsigned")
    else
      match ParseI64(Trim(fields[1]))
      case None => Reject("bad timestamp")
      case Some(ts) =>
        if Abs64(Wrap64(nowUnix - ts)) > REPLAY_WINDOW_SECS then Reject("timestamp outside replay window")
        else
          match Unhex32(Trim(fields[2]))
          case Panics => Panic
          case Malformed => Reject("bad hmac encoding")
          case Whole(got) => if mac(key, Signed(id, ts, rest)) == got then passed else Reject("hmac mismatch")
  }

  function PeelOf(dir: Directory, mac: Mac, text: string, nowUnix: int): Verdict {
    if !(HEADER <= text) then
      if dir.requireAuth then Reject("anonymous datagram (require-auth)") else Accept(text, None, None, false)
    else
      var fields, rest := Fields(text), Rest(text);
      var id := Trim(fields[0]);
      if id == "" then Reject("empty agent id")
      else if id in dir.keys then
        CheckSigned(mac, id, dir.keys[id], fields, rest, nowUnix, Accept(rest, Some(id), Board(dir, id), true))
      else if dir.requireAuth then Reject("unknown agent id (require-auth)")
      else Accept(rest, Some(id), Board(dir, id), false)
  }

  class AgentDirectory {
    var boards: map<string, nat>
    var keys: map<string, Bytes>
    var requireAuth: bool

    function View(): Directory
      reads this
    {
      Directory(boards, keys, requireAuth)
    }

    constructor ()
      ensures View() == Directory(map[], map[], false)
    {
      boards, keys, requireAuth := map[], map[], false;
    }

    method AddBoard(id: string, board: nat)
      modifies this`boards
      ensures boards == old(boards)[id := board]
    {
      boards := boards[id := board];
    }

    method AddKey(id: string, key: Bytes)
      modifies this`keys
      ensures keys == old(keys)[id := key]
    {
      keys := keys[id := key];
    }

    method Peel(mac: Mac, text: string, nowUnix: int) returns (v: Verdict)
      ensures v == PeelOf(View(), mac, text, nowUnix)
    {
      hide Unhex32, Trim, SplitLine, Split, ParseI64, Abs64, Wrap64;
      if !(HEADER <= text) {
        if requireAuth {
          return Reject("anonymous datagram (require-auth)");
        }
        return Accept(text, None, None, false);
      }
      var fields, rest := Fields(text), Rest(text);
      var id := Trim(fields[0]);
      if id == "" {
        return Reject("empty agent id");
      }
      var board := if id in boards then Some(boards[id]) else None;
      if id in keys {
        if |fields| != 3 {
          return Reject("agent has key but datagram is unsigned");
        }
        var ts := ParseI64(Trim(fields[1]));
        if ts.None? {
          return Reject("bad timestamp");
        }
        if Abs64(Wrap64(nowUnix - ts.value)) > REPLAY_WINDOW_SECS {
          return Reject("timestamp outside replay window");
        }
        var want := mac(keys[id], Signed(id, ts.value, rest));
        var got := HexDecode32(Trim(fields[2]));
        if got.Panics? {
          return Panic;
        }
        if got.Malformed? {
          return Reject("bad hmac encoding");
        }
        var same := CtEq(want, got.b);
        if !same {
          return Reject("hmac mismatch");
        }
        return Accept(rest, Some(id), board, true);
      }
      if requireAuth {
        return Reject("unknown agent id (require-auth)");
      }
      v := Accept(rest, Some(id), board, false);
    }
  }

  // ---- what the two ends agree on -----------------------------------------------------------------

  // An agent id the line can carry: one non-empty trimmed field.
  predicate IdValid(id: string) { id != "" && Trimmed(id) && ',' !in id && '\n' !in id }

  lemma LineSplits(body: string, payload: string)
    requires '\n' !in body && (body != "" ==> body[|body| - 1] != '\r')
    ensures SplitLine(body + "\n" + payload) == (body, payload)
  {
    SplitOnceAt(body, '\n', payload);
    assert body + ['\n'] + payload == body + "\n" + payload;
  }

  /** Identification only: the payload comes back exactly, with the agent's id and board. */
  lemma UnsignedPeels(dir: Directory, mac: Mac, id: string, ts: int, payload: string, nowUnix: int)
    requires IdValid(id) && id !in dir.keys && !dir.requireAuth
    ensures PeelOf(dir, mac, AgentLine(mac, id, [], ts, payload) + payload, nowUnix)
         == Accept(payload, Some(id), Board(dir, id), false)
  {
    var body := HEADER + id;
    assert AgentLine(mac, id, [], ts, payload) + payload == body + "\n" + payload;
    assert body[|body| - 1] == id[|id| - 1] && '\n' !in body;
    LineSplits(body, payload);
    assert body[|HEADER|..] == id && HEADER <= body + "\n" + payload;
    SplitLast(id, ',');
    TrimTrimmed(id);
    hide SplitLine, Split, Trim;
  }

  // The line's text, regrouped as header, three fields and line end.
  lemma LineText(id: string, t: string, h: string, payload: string)
    ensures HEADER + id + "," + t + "," + h + "\n" + payload
         == (HEADER + (id + [','] + (t + [','] + h))) + "\n" + payload
  {
    assert [','] == ",";
    Sequences.Associate(HEADER, id, ",");
    Sequences.Associate(HEADER, id + ",", t);
    Sequences.Associate(HEADER, id + "," + t, ",");
    Sequences.Associate(HEADER, id + "," + t + ",", h);
    Sequences.Associate(id + ",", t, ",");
    Sequences.Associate(id + ",", t + ",", h);
  }

  lemma FieldsOf(id: string, t: string, h: string, payload: string)
    requires ',' !in id && ',' !in t && ',' !in h && '\n' !in id && '\n' !in t && '\n' !in h
    requires h != "" && h[|h| - 1] != '\r'
    ensures var text := HEADER + id + "," + t + "," + h + "\n" + payload;
            HEADER <= text && Rest(text) == payload && Fields(text) == [id, t, h]
  {
    hide SplitLine, Split;
    var tail := id + [','] + (t + [','] + h);
    var body := HEADER + tail;
    LineText(id, t, h, payload);
    assert '\n' !in tail && '\n' !in HEADER;
    assert tail[|tail| - 1] == h[|h| - 1] && body[|body| - 1] == tail[|tail| - 1];
    LineSplits(body, payload);
    assert body[|HEADER|..] == tail;
    SplitCons(id, ',', t + [','] + h);
    SplitCons(t, ',', h);
    SplitLast(h, ',');
    assert [id] + ([t] + [h]) == [id, t, h];
  }

  lemma SignedFields(mac: Mac, id: string, psk: Bytes, ts: int, payload: string)
    requires IdValid(id) && psk != [] && Hash32(mac)
    requires -0x8000_0000_0000_0000 <= ts < 0x8000_0000_0000_0000
    ensures var text := AgentLine(mac, id, psk, ts, payload) + payload;
            && HEADER <= text && Rest(text) == payload
            && Fields(text) == [id, PrintInt(ts), Hex(AgentMac(mac, psk, Signed(id, ts, payload)))]
            && |Hex(AgentMac(mac, psk, Signed(id, ts, payload)))| == 64
  {
    var a := AgentMac(mac, psk, Signed(id, ts, payload));
    PrintedReads(ts);
    DigitsAreInk(PrintInt(ts));
    HexRoundTrip(a);
    assert |a| == 32;
    LastIsInk(Hex(a));
    FieldsOf(id, PrintInt(ts), Hex(a), payload);
    hide PrintInt, Hex, Signed, AgentMac, Fields, Rest, NoSpace;
  }

  lemma LastIsInk(s: string)
    requires s != "" && NoSpace(s)
    ensures s[|s| - 1] != '\r' && Trimmed(s)
  {
  }

  // The verdict on a signed datagram is that of its timestamp and of the two MACs.
  lemma SignedVerdict(dir: Directory, mac: Mac, id: string, ts: int, payload: string, nowUnix: int)
    requires IdValid(id) && id in dir.keys && dir.keys[id] != [] && Hash32(mac) && In64(ts)
    ensures var psk, m := dir.keys[id], Signed(id, ts, payload);
            var v := PeelOf(dir, mac, AgentLine(mac, id, psk, ts, payload) + payload, nowUnix);
            && (v.Accept? <==> Fresh(nowUnix, ts) && AgentMac(mac, psk, m) == mac(psk, m))
            && !v.Panic? && (v.Accept? ==> v == Accept(payload, Some(id), Board(dir, id), true))
  {
    hide Fresh;
    var psk := dir.keys[id];
    var t, a := PrintInt(ts), AgentMac(mac, psk, Signed(id, ts, payload));
    SignedFields(mac, id, psk, ts, payload);
    TrimTrimmed(id);
    PrintedReads(ts);
    DigitsAreInk(t);
    TrimTrimmed(t);
    HexRoundTrip(a);
    HexSized(a);
    LastIsInk(Hex(a));
    TrimTrimmed(Hex(a));
    hide *;
    FieldsCheck(dir, mac, id, ts, AgentLine(mac, id, psk, ts, payload) + payload, a, nowUnix);
  }

  // The verdict on a line whose three fields are id, a printed timestamp and a 32-octet MAC.
  lemma FieldsCheck(dir: Directory, mac: Mac, id: string, ts: int, text: string, a: Bytes, nowUnix: int)
    requires HEADER <= text && Fields(text) == [id, PrintInt(ts), Hex(a)] && |Hex(a)| == 64
    requires Trim(id) == id && Trim(PrintInt(ts)) == PrintInt(ts) && Trim(Hex(a)) == Hex(a)
    requires ParseI64(PrintInt(ts)) == Some(ts) && Unhex32(Hex(a)) == Whole(a)
    requires id != "" && id in dir.keys
    ensures var v := PeelOf(dir, mac, text, nowUnix);
            && (v.Accept? <==> Fresh(nowUnix, ts) && a == mac(dir.keys[id], Signed(id, ts, Rest(text))))
            && !v.Panic? && (v.Accept? ==> v == Accept(Rest(text), Some(id), Board(dir, id), true))
  {
    hide Fields, Trim, PrintInt, Hex, Unhex32, ParseI64, Signed, Rest, Abs64, Wrap64;
  }

  /** A signed datagram is accepted as authenticated, payload untouched, exactly when its timestamp is
      timely (within 300 s of the broker's clock, or where the difference wraps) and the agent's MAC,
      which covers only the first 2048 octets, equals the MAC of the whole. */
  lemma SignedPeels(dir: Directory, mac: Mac, id: string, ts: int, payload: string, nowUnix: int)
    requires IdValid(id) && id in dir.keys && dir.keys[id] != [] && Hash32(mac)
    requires In64(ts) && In64(nowUnix)
    ensures var psk, m := dir.keys[id], Signed(id, ts, payload);
            var v := PeelOf(dir, mac, AgentLine(mac, id, psk, ts, payload) + payload, nowUnix);
            && (v.Accept? <==> Timely(nowUnix, ts) && AgentMac(mac, psk, m) == mac(psk, m))
            && !v.Panic? && (v.Accept? ==> v == Accept(payload, Some(id), Board(dir, id), true))
  {
    hide *;
    SignedVerdict(dir, mac, id, ts, payload, nowUnix);
    FreshIff(nowUnix, ts);
  }

  /** Up to 2048 octets of signed text the agent's MAC is the whole MAC, so only the clock decides. */
  lemma ShortSignedPeels(dir: Directory, mac: Mac, id: string, ts: int, payload: string, nowUnix: int)
    requires IdValid(id) && id in dir.keys && dir.keys[id] != [] && Hash32(mac)
    requires In64(ts) && In64(nowUnix) && |Signed(id, ts, payload)| <= MAC_LIMIT
    ensures var v := PeelOf(dir, mac, AgentLine(mac, id, dir.keys[id], ts, payload) + payload, nowUnix);
            && (v.Accept? <==> Timely(nowUnix, ts))
            && (v.Accept? ==> v == Accept(payload, Some(id), Board(dir, id), true))
  {
    hide PeelOf, AgentLine, Signed, Timely;
    SignedPeels(dir, mac, id, ts, payload, nowUnix);
  }

  /** The window is not only 300 s wide: a correctly signed datagram stamped 2^63 s before the broker's
      clock is accepted, because the difference wraps to the least integer. */
  lemma StaleAccepted(dir: Directory, mac: Mac, id: string, payload: string, nowUnix: int)
    requires IdValid(id) && id in dir.keys && dir.keys[id] != [] && Hash32(mac)
    requires 0 <= nowUnix < 0x8000_0000_0000_0000
    requires |Signed(id, nowUnix - 0x8000_0000_0000_0000, payload)| <= MAC_LIMIT
    ensures var ts := nowUnix - 0x8000_0000_0000_0000;
            PeelOf(dir, mac, AgentLine(mac, id, dir.keys[id], ts, payload) + payload, nowUnix)
            == Accept(payload, Some(id), Board(dir, id), true)
  {
    hide PeelOf, AgentLine, Signed;
    ShortSignedPeels(dir, mac, id, nowUnix - 0x8000_0000_0000_0000, payload, nowUnix);
  }

  /** Peeling panics exactly on the line of a keyed id with three fields, a timestamp within the window
      and a third field on which the decoder does; no MAC is looked at. */
  lemma PeelPanicsIff(dir: Directory, mac: Mac, text: string, nowUnix: int)
    ensures PeelOf(dir, mac, text, nowUnix).Panic?
       <==> HEADER <= text && var fields := Fields(text);
            var id := Trim(fields[0]);
            && id != "" && id in dir.keys && |fields| == 3
            && ParseI64(Trim(fields[1])).Some? && Fresh(nowUnix, ParseI64(Trim(fields[1])).value)
            && Unhex32(Trim(fields[2])).Panics?
  {
    hide Fields, Trim, ParseI64, Unhex32, Abs64, Wrap64, Signed, Rest;
  }

  // An octet, a character of two octets and 61 octets more.
  function Straddled(): string { ['a', 0xE9 as char] + Letters() }

  lemma StraddledSize()
    ensures ByteLen(Straddled()) == 64
  {
    hide *;
    var a, e, z := ['a'], [0xE9 as char], Letters();
    StraddledParts();
    PlainLetters();
    AsciiLen(a);
    AsciiLen(z);
    TwoOctets(0xE9 as char);
    BytesAdd(a, e);
    BytesAdd(a + e, z);
  }

  function Letters(): string { seq(61, _ => 'a') }

  lemma StraddledParts()
    ensures var a, e, z := ['a'], [0xE9 as char], Letters();
            && Straddled() == a + e + z && |z| == 61 && Ascii(a) && |Straddled()| == 63
            && Straddled()[0] == 'a' && Straddled()[1] == 0xE9 as char
    ensures NoSpace(Straddled()) && ',' !in Straddled() && '\n' !in Straddled()
  {
  }

  lemma PlainLetters()
    ensures Ascii(Letters()) && |Letters()| == 61
  {
  }

  lemma TwoOctets(c: char)
    requires 0x80 <= c as int < 0x800
    ensures ByteLen([c]) == 2
  {
    Utf8Cons([c]);
    Utf8None();
    assert [c][1..] == "";
    hide Utf8;
  }

  /** Such a line exists for every keyed id and every timely stamp, and needs no key. */
  lemma StraddledPanics(dir: Directory, mac: Mac, id: string, ts: int, payload: string, nowUnix: int)
    requires IdValid(id) && id in dir.keys && In64(ts) && In64(nowUnix) && Timely(nowUnix, ts)
    ensures PeelOf(dir, mac, HEADER + id + "," + PrintInt(ts) + "," + Straddled() + "\n" + payload, nowUnix).Panic?
  {
    var h := Straddled();
    StraddledSize();
    StraddledParts();
    PrintedReads(ts);
    DigitsAreInk(PrintInt(ts));
    LastIsInk(h);
    assert DigitPairs(h, 0) && Straddles(h[2 * 0..]) by { assert h[0..] == h; }
    FieldsOf(id, PrintInt(ts), h, payload);
    TrimTrimmed(id);
    TrimTrimmed(PrintInt(ts));
    TrimTrimmed(h);
    hide *;
    PanicsIff(h);
    FreshIff(nowUnix, ts);
    PeelPanicsIff(dir, mac, HEADER + id + "," + PrintInt(ts) + "," + h + "\n" + payload, nowUnix);
  }

  lemma ParsedIn64(s: string)
    requires ParseI64(s).Some?
    ensures In64(ParseI64(s).value)
  {
    hide Value, AllDigits;
  }

  /** As soon as a key is configured, no control command gets through from a sender that cannot MAC:
      whatever is accepted as authenticated carries a MAC under a configured key and a timely stamp. */
  lemma AuthedHasMac(dir: Directory, mac: Mac, text: string, nowUnix: int)
    requires In64(nowUnix)
    requires PeelOf(dir, mac, text, nowUnix).Accept? && PeelOf(dir, mac, text, nowUnix).authed
    ensures exists id: string, ts: int ::
              id in dir.keys && Timely(nowUnix, ts) && HEADER <= text && |Fields(text)| == 3
              && Unhex32(Trim(Fields(text)[2])) == Whole(mac(dir.keys[id], Signed(id, ts, Rest(text))))
  {
    hide Fields, Rest, Trim, ParseI64, Unhex32, Signed, Abs64, Wrap64, Timely;
    var fields := Fields(text);
    var id := Trim(fields[0]);
    var ts := ParseI64(Trim(fields[1])).value;
    ParsedIn64(Trim(fields[1]));
    FreshIff(nowUnix, ts);
    assert id in dir.keys && Timely(nowUnix, ts);
  }
}
