/** The agent's text dump and its replay: which files give back the datagrams they were made from, and
    how long the replay sleeps. One character stands for one octet of the file. */
module Replay {
  import opened Wrappers
  import opened Text
  import opened Send
  import Auth
  import SendLaws
  import Sequences

  const LINE_MAX := 1023
  const SLEEP_WRAP := 0x1_0000_0000

  // ---- reading a dump -----------------------------------------------------------------------------

  // One read: through the next newline, but no more than the line buffer holds.
  function ChunkEnd(s: string): (i: nat)
    ensures i <= |s| && i <= LINE_MAX && (s != "" ==> i > 0)
  {
    var i := Find(s, '\n');
    if i >= LINE_MAX then LINE_MAX else if i < |s| then i + 1 else i
  }

  // A C string ends at its first NUL.
  function CString(s: string): string { s[..Find(s, 0 as char)] }

  function Chunks(s: string): seq<string> {
    if s == "" then [] else
      var i := ChunkEnd(s);
      [CString(s[..i])] + Chunks(s[i..])
  }

  predicate IsSpace(c: char) { c == ' ' || '\t' <= c <= '\r' }

  function SkipSpace(s: string): (r: string)
    ensures |r| <= |s|
  {
    if s != "" && IsSpace(s[0]) then SkipSpace(s[1..]) else s
  }

  function DigitRun(s: string): (i: nat)
    ensures i <= |s| && AllDigits(s[..i]) && (i < |s| ==> !IsDigit(s[i]))
  {
    if s == "" || !IsDigit(s[0]) then 0
    else
      var i := DigitRun(s[1..]);
      assert s[..i + 1] == [s[0]] + s[1..][..i];
      i + 1
  }

  // scanf's %ld: space, an optional sign, the longest run of digits; the number and the text behind it.
  function ScanInt(s: string): Option<(int, string)> {
    var t := SkipSpace(s);
    var negative := t != "" && t[0] == '-';
    var u := if t != "" && (t[0] == '-' || t[0] == '+') then t[1..] else t;
    var i := DigitRun(u);
    if i == 0 then None
    else Some((if negative then 0 - Value(u[..i]) as int else Value(u[..i]), u[i..]))
  }

  // A line that the format "TIME %ld %ld" fully matches.
  function Stamp(s: string): Option<Time> {
    if !("TIME" <= s) then None
    else
      match ScanInt(s[4..])
      case None => None
      case Some((sec, rest)) =>
        match ScanInt(rest)
        case None => None
        case Some((usec, _)) => Some(Time(sec, usec))
  }

  // ---- the replay's state -----------------------------------------------------------------------------

  datatype Progress = Progress(now: Time, mesg: string, sent: seq<string>, slept: seq<int>)

  const START := Progress(Time(0, 0), "", [], [])

  function Out(st: Progress): Progress {
    if st.mesg == "" then st else st.(sent := st.sent + [st.mesg], mesg := "")
  }

  // The argument of the sleep: the elapsed microseconds in 32 bits.
  function Sleep(next: Time, now: Time): int {
    (DiffSec(next, now) * 1_000_000 + DiffUsec(next, now)) % SLEEP_WRAP
  }

  function Play(st: Progress, line: string): Progress {
    match Stamp(line)
    case Some(t) =>
      if st.now == Time(0, 0) then st.(now := t)
      else
        var s := Out(st);
        s.(slept := s.slept + [Sleep(t, st.now)], now := t)
    case None =>
      if |st.mesg| + |line| > MESG_MAX
      then st.(sent := st.sent + [st.mesg], mesg := line)
      else st.(mesg := st.mesg + line)
  }

  function PlayAll(st: Progress, lines: seq<string>): Progress
    decreases |lines|
  {
    if lines == [] then st else PlayAll(Play(st, lines[0]), lines[1..])
  }

  // The whole replay of a file.
  function Replayed(file: string): Progress { Out(PlayAll(START, Chunks(file))) }

  class Player {
    var now: Time
    var mesg: string
    var sent: seq<string>
    var slept: seq<int>

    function View(): Progress
      reads this
    {
      Progress(now, mesg, sent, slept)
    }

    constructor ()
      ensures View() == START
    {
      now, mesg, sent, slept := Time(0, 0), "", [], [];
    }

    method Run(file: string)
      requires View() == START
      modifies this
      ensures View() == Replayed(file)
    {
      hide Stamp, Sleep, ChunkEnd, CString;
      var rest := file;
      while rest != ""
        invariant PlayAll(View(), Chunks(rest)) == PlayAll(START, Chunks(file))
        decreases |rest|
      {
        var i := ChunkEnd(rest);
        var buf := CString(rest[..i]);
        ghost var before := View();
        assert Chunks(rest)[0] == buf && Chunks(rest)[1..] == Chunks(rest[i..]);
        rest := rest[i..];
        One(buf);
        assert View() == Play(before, buf);
      }
      if mesg != "" {
        sent, mesg := sent + [mesg], "";
      }
    }

    // The branches of the loop body, for one line.
    method One(buf: string)
      modifies this
      ensures View() == Play(old(View()), buf)
    {
      hide Stamp, Sleep;
      var stamp := Stamp(buf);
      if stamp.Some? {
        if now == Time(0, 0) {
          now := stamp.value;
        } else {
          if mesg != "" {
            sent, mesg := sent + [mesg], "";
          }
          slept := slept + [Sleep(stamp.value, now)];
          now := stamp.value;
        }
      } else {
        if |mesg| + |buf| > MESG_MAX {
          sent, mesg := sent + [mesg], "";
        }
        mesg := mesg + buf;
      }
    }
  }

  // ---- what every replay keeps ---------------------------------------------------------------------

  function Joined(ss: seq<string>): string {
    if ss == [] then "" else Joined(ss[..|ss| - 1]) + ss[|ss| - 1]
  }

  // The lines of a file that are not stamps.
  function Payload(lines: seq<string>): string {
    if lines == [] then "" else (if Stamp(lines[0]).Some? then "" else lines[0]) + Payload(lines[1..])
  }

  lemma JoinedSnoc(ss: seq<string>, s: string)
    ensures Joined(ss + [s]) == Joined(ss) + s
  {
    assert (ss + [s])[..|ss + [s]| - 1] == ss;
  }

  lemma OutKeeps(st: Progress)
    ensures Joined(Out(st).sent) + Out(st).mesg == Joined(st.sent) + st.mesg
  {
    if st.mesg != "" {
      JoinedSnoc(st.sent, st.mesg);
    }
  }

  /** Nothing but stamp lines is lost: for every file, the datagrams sent and the one being gathered are
      together the non-stamp text read so far, in order. */
  lemma {:induction false} PlayKeeps(st: Progress, lines: seq<string>)
    ensures var s := PlayAll(st, lines);
            Joined(s.sent) + s.mesg == Joined(st.sent) + st.mesg + Payload(lines)
    decreases |lines|
  {
    if lines == [] {
      assert Joined(st.sent) + st.mesg + "" == Joined(st.sent) + st.mesg;
    } else {
      hide *;
      var s := Play(st, lines[0]);
      Ahead(st, lines);
      PlayKeeps(s, lines[1..]);
      StepKeeps(st, lines[0]);
      Sequences.Associate(Joined(st.sent) + st.mesg, if Stamp(lines[0]).Some? then "" else lines[0], Payload(lines[1..]));
    }
  }

  lemma Ahead(st: Progress, lines: seq<string>)
    requires lines != []
    ensures PlayAll(st, lines) == PlayAll(Play(st, lines[0]), lines[1..])
    ensures Payload(lines) == (if Stamp(lines[0]).Some? then "" else lines[0]) + Payload(lines[1..])
  {
    hide Play, Stamp;
  }

  lemma StepKeeps(st: Progress, line: string)
    ensures var s := Play(st, line);
            Joined(s.sent) + s.mesg == Joined(st.sent) + st.mesg + if Stamp(line).Some? then "" else line
  {
    hide Stamp, Joined, Sleep;
    OutKeeps(st);
    JoinedSnoc(st.sent, st.mesg);
    assert Joined(st.sent) + st.mesg + line == Joined(st.sent) + (st.mesg + line);
    assert Joined(st.sent) + st.mesg + "" == Joined(st.sent) + st.mesg;
  }

  // Every datagram fits the gathering buffer.
  predicate Sized(st: Progress) {
    |st.mesg| <= MESG_MAX && forall i :: 0 <= i < |st.sent| ==> |st.sent[i]| <= MESG_MAX
  }

  lemma {:induction false} ChunkSize(s: string)
    ensures forall i :: 0 <= i < |Chunks(s)| ==> |Chunks(s)[i]| <= LINE_MAX
  {
    if s != "" {
      ChunkSize(s[ChunkEnd(s)..]);
      hide Find;
    }
  }

  lemma {:induction false} PlaySized(st: Progress, lines: seq<string>)
    requires Sized(st) && forall i :: 0 <= i < |lines| ==> |lines[i]| <= LINE_MAX
    ensures Sized(PlayAll(st, lines))
    decreases |lines|
  {
    if lines != [] {
      hide Stamp, Sleep;
      PlaySized(Play(st, lines[0]), lines[1..]);
    }
  }

  // ---- the dump ------------------------------------------------------------------------------------

  // One datagram as the dump shows it: the time it was emitted and its octets.
  datatype Dumped = Dumped(at: Time, text: string)

  function StampLine(t: Time): string { "TIME " + PrintInt(t.sec) + " " + PrintInt(t.usec) + "\n" }

  function Dump(ds: seq<Dumped>): string {
    if ds == [] then "" else StampLine(ds[0].at) + ds[0].text + Dump(ds[1..])
  }

  lemma {:induction false} DumpSnoc(ds: seq<Dumped>, d: Dumped)
    ensures Dump(ds + [d]) == Dump(ds) + StampLine(d.at) + d.text
  {
    hide StampLine;
    if ds == [] {
      assert [] + [d] == [d] && [d][1..] == [];
      assert "" + StampLine(d.at) + d.text == StampLine(d.at) + d.text + "";
    } else {
      assert (ds + [d])[1..] == ds[1..] + [d];
      DumpSnoc(ds[1..], d);
      Regrouped(StampLine(ds[0].at) + ds[0].text, Dump(ds[1..]), StampLine(d.at), d.text);
    }
  }

  lemma Regrouped(a: string, b: string, c: string, d: string)
    ensures a + (b + c + d) == (a + b) + c + d
  {
  }

  // The agent's standard output in dump mode.
  class Dumper {
    var stdout: string
    ghost var dumped: seq<Dumped>

    ghost predicate Valid()
      reads this
    {
      stdout == Dump(dumped)
    }

    constructor ()
      ensures Valid() && dumped == []
    {
      stdout, dumped := "", [];
    }

    method Emit(mesg: string, now: Time)
      requires Valid()
      modifies this
      ensures Valid() && dumped == old(dumped) + [Dumped(now, mesg)]
    {
      DumpSnoc(dumped, Dumped(now, mesg));
      stdout := stdout + StampLine(now);
      stdout := stdout + mesg;
      dumped := dumped + [Dumped(now, mesg)];
    }
  }

  function Texts(ds: seq<Dumped>): seq<string> {
    if ds == [] then [] else [ds[0].text] + Texts(ds[1..])
  }

  predicate NoNul(s: string) { forall i :: 0 <= i < |s| ==> s[i] != 0 as char }

  predicate Ended(s: string) { s != "" && s[|s| - 1] == '\n' && NoNul(s) }

  predicate RealTime(t: Time) { 0 <= t.sec < 0x8000_0000_0000_0000 && TimeValid(t) && t != Time(0, 0) }

  predicate Stampless(text: string) { forall i :: 0 <= i < |Chunks(text)| ==> Stamp(Chunks(text)[i]).None? }

  // A text after which reading starts afresh: its last read ends with a newline or fills the buffer.
  predicate Closed(t: string)
    decreases |t|
  {
    t != "" ==>
      var i := ChunkEnd(t);
      if i < |t| then Closed(t[i..]) else i == LINE_MAX || t[i - 1] == '\n'
  }

  predicate Dumps(ds: seq<Dumped>) { forall i :: 0 <= i < |ds| ==> NoNul(ds[i].text) && RealTime(ds[i].at) }

  // The datagram is not empty and fits the gathering buffer, and no read of it looks like a stamp.
  predicate Replayable(d: Dumped) { d.text != "" && |d.text| <= MESG_MAX && Stampless(d.text) }

  // All can be replayed, and each but the last leaves the next stamp a line of its own.
  predicate Restorable(ds: seq<Dumped>) {
    && (forall i :: 0 <= i < |ds| ==> Replayable(ds[i]))
    && (forall i :: 0 <= i < |ds| - 1 ==> Closed(ds[i].text))
  }

  lemma ClosedCut(a: string, i: nat)
    requires Closed(a) && a != "" && i == ChunkEnd(a)
    ensures 0 < i <= |a| && (i == LINE_MAX || a[i - 1] == '\n') && Closed(a[i..])
  {
    hide Find;
  }

  lemma FirstRead(a: string, b: string)
    requires a != "" && (ChunkEnd(a) == LINE_MAX || a[ChunkEnd(a) - 1] == '\n')
    ensures ChunkEnd(a + b) == ChunkEnd(a)
  {
    var i := Find(a, '\n');
    var j := Find(a + b, '\n');
    hide Find;
    assert forall k :: 0 <= k < |a| ==> (a + b)[k] == a[k];
  }

  lemma {:induction false} EndedClosed(s: string)
    requires Ended(s)
    ensures Closed(s)
    decreases |s|
  {
    var i := ChunkEnd(s);
    EndedDrop(s, i);
    if i < |s| { EndedClosed(s[i..]); }
    hide ChunkEnd;
  }

  // What follows the last newline.
  function Tail(t: string): string {
    if t == "" || t[|t| - 1] == '\n' then "" else Tail(t[..|t| - 1]) + [t[|t| - 1]]
  }

  lemma {:induction false} TailAppend(a: string, b: string)
    ensures Tail(a + b) == if '\n' in b then Tail(b) else Tail(a) + b
  {
    if b == "" {
      assert a + b == a && Tail(a) + b == Tail(a);
    } else {
      var n := |b| - 1;
      TailAppend(a, b[..n]);
      assert (a + b)[..|a + b| - 1] == a + b[..n] && b == b[..n] + [b[n]];
      assert '\n' !in b ==> Tail(a) + b[..n] + [b[n]] == Tail(a) + b;
    }
  }

  lemma TailWhole(t: string)
    requires '\n' !in t
    ensures Tail(t) == t
  {
    TailAppend("", t);
    assert "" + t == t && Tail("") + t == t;
  }

  /** A text is closed exactly when the octets after its last newline, if any, fill whole buffers. */
  lemma {:induction false} ClosedIff(t: string)
    ensures Closed(t) <==> |Tail(t)| % LINE_MAX == 0
    decreases |t|
  {
    hide *;
    if t == "" {
      ClosedNone();
    } else {
      var i := ChunkEnd(t);
      ReadEnds(t);
      ClosedStep(t);
      if i < |t| { ClosedIff(t[i..]); }
      TailStep(t, i);
    }
  }

  lemma ClosedNone()
    ensures Closed("") && Tail("") == "" && LINE_MAX == 1023
  {
  }

  lemma ClosedStep(t: string)
    requires t != ""
    ensures var i := ChunkEnd(t);
            Closed(t) <==> if i < |t| then Closed(t[i..]) else i == LINE_MAX || t[i - 1] == '\n'
  {
    hide ChunkEnd;
  }

  // A read ends with the only newline in it, or fills the buffer, or is all there is.
  lemma ReadEnds(t: string)
    requires t != ""
    ensures var i := ChunkEnd(t);
            && 0 < i <= |t| && i <= LINE_MAX == 1023 && '\n' !in t[..i - 1]
            && (t[i - 1] == '\n' || i == LINE_MAX || i == |t|)
  {
    hide Find;
  }

  // The tail before and behind one read.
  lemma TailStep(t: string, i: nat)
    requires 0 < i <= |t| && i <= 1023 && '\n' !in t[..i - 1] && (t[i - 1] == '\n' || i == 1023 || i == |t|)
    ensures i < |t| ==> |Tail(t)| % 1023 == |Tail(t[i..])| % 1023
    ensures i == |t| ==> (|Tail(t)| % 1023 == 0 <==> i == 1023 || t[i - 1] == '\n')
  {
    hide *;
    var a, b := t[..i], t[i..];
    assert t == a + b;
    TailAppend(a, b);
    if '\n' !in b {
      TailWhole(b);
      if t[i - 1] == '\n' {
        TailEnded(a);
        assert "" + b == b;
      } else {
        assert a == t[..i - 1] + [t[i - 1]];
        TailWhole(a);
        if i == 1023 { FullBuffer(|a + b|, |b|); }
      }
    }
    assert i == |t| ==> b == "";
  }

  lemma TailEnded(a: string)
    requires a != "" && a[|a| - 1] == '\n'
    ensures Tail(a) == ""
  {
  }

  lemma FullBuffer(n: nat, m: nat)
    requires n == m + 1023
    ensures n % 1023 == m % 1023
  {
  }

  lemma ChunksCons(s: string, i: nat)
    requires s != "" && i == ChunkEnd(s)
    ensures i <= |s| && Chunks(s) == [CString(s[..i])] + Chunks(s[i..])
  {
  }

  lemma {:induction false} ChunksAppend(a: string, b: string)
    requires Closed(a)
    ensures Chunks(a + b) == Chunks(a) + Chunks(b)
    decreases |a|
  {
    hide *;
    if a == "" {
      assert a + b == b;
      NoChunks(Chunks(b));
    } else {
      var i := ChunkEnd(a);
      ClosedCut(a, i);
      FirstRead(a, b);
      assert a + b != "" && a != "";
      ChunksCons(a + b, i);
      ChunksCons(a, i);
      assert (a + b)[..i] == a[..i] && (a + b)[i..] == a[i..] + b;
      ChunksAppend(a[i..], b);
      Sequences.Associate([CString(a[..i])], Chunks(a[i..]), Chunks(b));
    }
  }

  lemma NoChunks(rest: seq<string>)
    ensures Chunks("") == [] && [] + rest == rest
  {
  }

  lemma EndedDrop(a: string, i: nat)
    requires Ended(a) && i <= |a|
    ensures a != "" && (a[i..] == "" || Ended(a[i..]))
  {
  }

  lemma NoNulString(s: string)
    requires NoNul(s)
    ensures CString(s) == s
  {
    var i := Find(s, 0 as char);
    hide Find;
  }

  // ---- stamp lines read back --------------------------------------------------------------------------

  lemma RunOfDigits(d: string, rest: string)
    requires AllDigits(d) && (rest != "" ==> !IsDigit(rest[0]))
    ensures DigitRun(d + rest) == |d|
  {
    var s := d + rest;
    var i := DigitRun(s);
    hide DigitRun;
    assert forall k :: 0 <= k < |d| ==> s[k] == d[k];
    assert rest != "" ==> s[|d|] == rest[0];
    assert forall k :: 0 <= k < i ==> s[..i][k] == s[k];
  }

  lemma ScanReads(d: string, rest: string)
    requires d != "" && AllDigits(d) && (rest != "" ==> !IsDigit(rest[0]))
    ensures ScanInt(" " + d + rest) == Some((Value(d) as int, rest))
  {
    var s := " " + d + rest;
    var t := d + rest;
    assert IsDigit(d[0]) && t[0] == d[0] && s[1..] == t;
    assert SkipSpace(t) == t && SkipSpace(s) == t;
    RunOfDigits(d, rest);
    hide DigitRun, SkipSpace, Value;
    assert t[..|d|] == d && t[|d|..] == rest;
  }

  lemma StampReads(t: Time)
    requires t.sec >= 0 && t.usec >= 0
    ensures Stamp(StampLine(t)) == Some(t)
  {
    var a, b := PrintInt(t.sec), PrintInt(t.usec);
    assert AllDigits(a) && AllDigits(b) && Value(a) == t.sec && Value(b) == t.usec && a != "" && b != "" by {
      DecimalReads(t.sec);
      DecimalReads(t.usec);
    }
    hide PrintInt, Value, AllDigits, ScanInt;
    var s := StampLine(t);
    var rest := " " + b + "\n";
    assert s == "TIME" + (" " + a + rest);
    assert s[4..] == " " + a + rest;
    ScanReads(a, rest);
    ScanReads(b, "\n");
  }

  lemma StampShape(t: Time)
    requires RealTime(t)
    ensures Ended(StampLine(t)) && Chunks(StampLine(t)) == [StampLine(t)]
  {
    var a, b, s := PrintInt(t.sec), PrintInt(t.usec), StampLine(t);
    assert |a| <= 19 && |b| <= 19 && '\n' !in a && '\n' !in b && AllDigits(a) && AllDigits(b) by {
      TimeDigits(t.sec);
      TimeDigits(t.usec);
    }
    hide PrintInt, Value;
    assert NoNul(s);
    NoNulString(s);
    assert s[|s| - 1] == '\n' && forall i :: 0 <= i < |s| - 1 ==> s[i] != '\n';
    assert Find(s, '\n') == |s| - 1;
    hide Find, CString, NoNul;
    assert s[..|s|] == s && s[|s|..] == "";
  }

  lemma TimeDigits(n: nat)
    requires n < 0x8000_0000_0000_0000
    ensures |PrintInt(n)| <= 19 && AllDigits(PrintInt(n)) && '\n' !in PrintInt(n)
  {
    SendLaws.TenDigits();
    assert SendLaws.Pow10(12) == 1_000_000_000_000;
    assert SendLaws.Pow10(14) == 100_000_000_000_000;
    assert SendLaws.Pow10(16) == 10_000_000_000_000_000;
    assert SendLaws.Pow10(18) == 1_000_000_000_000_000_000;
    SendLaws.DecimalLength(n, 19, 10_000_000_000_000_000_000);
    DecimalReads(n);
    DigitsAreInk(Decimal(n));
  }

  // ---- dump, then replay ---------------------------------------------------------------------------------

  lemma DumpChunks(ds: seq<Dumped>)
    requires Dumps(ds) && ds != [] && (|ds| > 1 ==> Closed(ds[0].text))
    ensures Chunks(Dump(ds)) == [StampLine(ds[0].at)] + (Chunks(ds[0].text) + Chunks(Dump(ds[1..])))
  {
    hide *;
    var line, text, rest := StampLine(ds[0].at), ds[0].text, Dump(ds[1..]);
    FirstTime(ds);
    StampShape(ds[0].at);
    EndedClosed(line);
    DumpCons(ds);
    Sequences.Associate(line, text, rest);
    ChunksAppend(line, text + rest);
    if |ds| > 1 {
      ChunksAppend(text, rest);
    } else {
      LastText(ds);
      assert Chunks(text) + [] == Chunks(text);
    }
  }

  lemma FirstTime(ds: seq<Dumped>)
    requires Dumps(ds) && ds != []
    ensures RealTime(ds[0].at)
  {
    hide RealTime, NoNul;
  }

  lemma LastText(ds: seq<Dumped>)
    requires |ds| == 1
    ensures Chunks(Dump(ds[1..])) == [] && ds[0].text + Dump(ds[1..]) == ds[0].text
  {
    NoChunks([]);
    assert ds[1..] == [];
    hide Chunks;
  }

  lemma {:induction false} PlayAppend(st: Progress, a: seq<string>, b: seq<string>)
    ensures PlayAll(st, a + b) == PlayAll(PlayAll(st, a), b)
    decreases |a|
  {
    hide Play;
    if a == [] {
      assert a + b == b;
    } else {
      assert (a + b)[1..] == a[1..] + b;
      PlayAppend(Play(st, a[0]), a[1..], b);
    }
  }

  // Lines that are no stamps are gathered into one datagram while it fits.
  lemma {:induction false} Gather(st: Progress, lines: seq<string>)
    requires forall i :: 0 <= i < |lines| ==> Stamp(lines[i]).None?
    requires |st.mesg| + |Payload(lines)| <= MESG_MAX
    ensures PlayAll(st, lines) == st.(mesg := st.mesg + Payload(lines))
    decreases |lines|
  {
    hide Stamp;
    if lines == [] {
      assert st.mesg + "" == st.mesg;
    } else {
      Gather(st.(mesg := st.mesg + lines[0]), lines[1..]);
      assert st.mesg + lines[0] + Payload(lines[1..]) == st.mesg + Payload(lines);
    }
  }

  // The non-stamp text of a datagram: all of it, unless one of its reads looks like a stamp.
  lemma {:induction false} TextPayload(t: string)
    requires NoNul(t)
    ensures |Payload(Chunks(t))| <= |t| && (Stampless(t) <==> |Payload(Chunks(t))| == |t|)
    ensures Stampless(t) ==> Payload(Chunks(t)) == t
    decreases |t|
  {
    hide *;
    if t == "" {
      NoChunks([]);
      assert Payload([]) == "" && Stampless("") by { EmptyPayload(); }
    } else {
      var i := ChunkEnd(t);
      ChunksCons(t, i);
      NoNulCut(t, i);
      StamplessCons(t, t[..i], t[i..]);
      TextPayload(t[i..]);
      Ahead(START, Chunks(t));
      assert Chunks(t)[0] == t[..i] && Chunks(t)[1..] == Chunks(t[i..]);
      assert t == t[..i] + t[i..];
    }
  }

  lemma EmptyPayload()
    ensures Payload([]) == "" && Stampless("")
  {
  }

  lemma NoNulCut(t: string, i: nat)
    requires NoNul(t) && t != "" && i == ChunkEnd(t)
    ensures 0 < i <= |t| && CString(t[..i]) == t[..i] && NoNul(t[i..])
  {
    hide ChunkEnd, CString;
    NoNulString(t[..i]);
  }

  lemma StamplessCons(t: string, line: string, rest: string)
    requires Chunks(t) == [line] + Chunks(rest)
    ensures Stampless(t) <==> Stamp(line).None? && Stampless(rest)
  {
    hide Chunks, Stamp;
    var cs, more := Chunks(t), Chunks(rest);
    assert cs[0] == line && forall k :: 0 <= k < |more| ==> cs[k + 1] == more[k];
    assert forall k :: 0 < k < |cs| ==> cs[k] == more[k - 1];
  }

  function Gaps(now: Time, ds: seq<Dumped>): seq<int>
    decreases |ds|
  {
    if ds == [] then [] else [Sleep(ds[0].at, now)] + Gaps(ds[0].at, ds[1..])
  }

  // What one dumped datagram does to a replay already under way.
  lemma OnePlays(st: Progress, d: Dumped)
    requires st.now != Time(0, 0) && NoNul(d.text) && RealTime(d.at) && Replayable(d)
    ensures PlayAll(Play(st, StampLine(d.at)), Chunks(d.text))
         == Out(st).(slept := st.slept + [Sleep(d.at, st.now)], now := d.at, mesg := d.text)
  {
    StampReads(d.at);
    TextPayload(d.text);
    hide Chunks, Stamp, StampLine, Sleep, NoNul;
    var s := Play(st, StampLine(d.at));
    assert s.mesg == "" && "" + d.text == d.text;
    Gather(s, Chunks(d.text));
  }

  lemma {:induction false} DumpPlays(st: Progress, ds: seq<Dumped>)
    requires st.now != Time(0, 0) && Dumps(ds) && Restorable(ds)
    ensures Out(PlayAll(st, Chunks(Dump(ds)))).sent == Out(st).sent + Texts(ds)
    ensures Out(PlayAll(st, Chunks(Dump(ds)))).slept == st.slept + Gaps(st.now, ds)
    decreases |ds|
  {
    hide *;
    if ds == [] {
      NothingDumped(st);
    } else {
      var d, line := ds[0], StampLine(ds[0].at);
      var next := Out(st).(slept := st.slept + [Sleep(d.at, st.now)], now := d.at, mesg := d.text);
      FirstDumped(ds);
      TailDumps(ds);
      DumpChunks(ds);
      StepOver(st, line, Chunks(d.text), Chunks(Dump(ds[1..])));
      OnePlays(st, d);
      DumpPlays(next, ds[1..]);
      assert ds == [d] + ds[1..];
      OutSends(Out(st), Sleep(d.at, st.now), d, ds[1..]);
      OutWaits(st);
    }
  }

  lemma NothingDumped(st: Progress)
    ensures PlayAll(st, Chunks(Dump([]))) == st && Texts([]) == [] && Gaps(st.now, []) == []
    ensures Out(st).sent + [] == Out(st).sent && Out(st).slept == st.slept == st.slept + []
  {
    NoChunks([]);
  }

  lemma FirstDumped(ds: seq<Dumped>)
    requires Dumps(ds) && Restorable(ds) && ds != []
    ensures NoNul(ds[0].text) && RealTime(ds[0].at) && ds[0].at != Time(0, 0)
    ensures Replayable(ds[0]) && ds[0].text != "" && (|ds| > 1 ==> Closed(ds[0].text))
  {
    hide NoNul, Stampless, Closed;
  }

  lemma OutWaits(st: Progress)
    ensures Out(st).slept == st.slept && Out(st).now == st.now
  {
  }

  // Once a pending datagram has gone out, the next one follows it.
  lemma OutSends(st: Progress, slept: int, d: Dumped, more: seq<Dumped>)
    requires d.text != ""
    ensures var next := st.(slept := st.slept + [slept], now := d.at, mesg := d.text);
            && Out(next).sent + Texts(more) == st.sent + Texts([d] + more)
            && next.slept + Gaps(d.at, more) == st.slept + ([slept] + Gaps(d.at, more))
    ensures forall now: Time {:trigger Gaps(now, [d] + more)} :: Gaps(now, [d] + more) == [Sleep(d.at, now)] + Gaps(d.at, more)
  {
    hide Sleep;
    assert ([d] + more)[1..] == more;
  }

  lemma StepOver(st: Progress, line: string, a: seq<string>, b: seq<string>)
    ensures PlayAll(st, [line] + (a + b)) == PlayAll(PlayAll(Play(st, line), a), b)
  {
    hide Play;
    assert ([line] + (a + b))[1..] == a + b;
    PlayAppend(Play(st, line), a, b);
  }

  lemma FirstPlays(d: Dumped)
    requires NoNul(d.text) && RealTime(d.at) && Replayable(d)
    ensures PlayAll(Play(START, StampLine(d.at)), Chunks(d.text)) == START.(now := d.at, mesg := d.text)
  {
    StampReads(d.at);
    TextPayload(d.text);
    hide Chunks, Stamp, StampLine, Sleep, NoNul;
    var s := Play(START, StampLine(d.at));
    assert s.mesg == "" && "" + d.text == d.text;
    Gather(s, Chunks(d.text));
  }

  // A replayable dump: its datagrams, and a sleep between each two.
  lemma DumpReplays(ds: seq<Dumped>)
    requires Dumps(ds) && Restorable(ds)
    ensures Replayed(Dump(ds)).sent == Texts(ds)
    ensures Replayed(Dump(ds)).slept == if ds == [] then [] else Gaps(ds[0].at, ds[1..])
  {
    if ds == [] {
      NoChunks([]);
    } else {
      var d := ds[0];
      FirstDumped(ds);
      AfterFirst(ds);
      TailDumps(ds);
      hide Chunks, Dump, Sleep, PlayAll, Replayable, NoNul, RealTime, Dumps, Restorable, Gaps;
      DumpPlays(START.(now := d.at, mesg := d.text), ds[1..]);
      assert [] + [d.text] == [d.text] && [] + Gaps(d.at, ds[1..]) == Gaps(d.at, ds[1..]);
    }
  }

  lemma TailDumps(ds: seq<Dumped>)
    requires Dumps(ds) && ds != []
    ensures Dumps(ds[1..]) && (Restorable(ds) ==> Restorable(ds[1..]))
  {
    hide NoNul, RealTime, Replayable, Closed;
  }

  lemma AfterFirst(ds: seq<Dumped>)
    requires Dumps(ds) && ds != [] && Restorable(ds)
    ensures PlayAll(START, Chunks(Dump(ds)))
         == PlayAll(START.(now := ds[0].at, mesg := ds[0].text), Chunks(Dump(ds[1..])))
  {
    FirstDumped(ds);
    hide Chunks, Dump, StampLine, Play, PlayAll, NoNul, RealTime, Replayable, Closed, Restorable;
    DumpChunks(ds);
    StepOver(START, StampLine(ds[0].at), Chunks(ds[0].text), Chunks(Dump(ds[1..])));
    FirstPlays(ds[0]);
  }

  // ---- what any replay sends -----------------------------------------------------------------------------

  // A gathered datagram: none of its reads is a stamp, and the next stamp is a line of its own.
  predicate Sound(a: string) { a != "" && |a| <= MESG_MAX && Stampless(a) && Closed(a) }

  predicate SoundSent(st: Progress) { forall i :: 0 <= i < |st.sent| ==> Sound(st.sent[i]) }

  lemma StamplessAppend(a: string, line: string)
    requires Stampless(a) && Closed(a) && Chunks(line) == [line] && Stamp(line).None?
    ensures Stampless(a + line)
  {
    ChunksAppend(a, line);
    hide Chunks, Stamp, Closed;
  }

  lemma {:induction false} ClosedAppend(a: string, b: string)
    requires Closed(a) && Closed(b)
    ensures Closed(a + b)
    decreases |a|
  {
    hide *;
    if a == "" {
      assert a + b == b;
    } else {
      var i := ChunkEnd(a);
      ClosedCut(a, i);
      FirstRead(a, b);
      ClosedAppend(a[i..], b);
      assert a + b != "" && (a + b)[i..] == a[i..] + b && (a + b)[i - 1] == a[i - 1];
      ClosedCons(a + b, i);
    }
  }

  lemma ClosedCons(t: string, i: nat)
    requires t != "" && i == ChunkEnd(t) && 0 < i <= |t| && (i == LINE_MAX || t[i - 1] == '\n') && Closed(t[i..])
    ensures Closed(t)
  {
    hide ChunkEnd;
  }

  // One read: what is sent is sound, and what is gathered is as long as the reads are closed.
  lemma PlaySound(st: Progress, line: string)
    requires SoundSent(st) && (st.mesg == "" || Sound(st.mesg))
    requires line != "" && |line| <= LINE_MAX && Chunks(line) == [line]
    ensures var s := Play(st, line);
            && SoundSent(s) && |s.mesg| <= MESG_MAX && Stampless(s.mesg)
            && (Closed(line) ==> s.mesg == "" || Sound(s.mesg))
  {
    hide *;
    NoneStampless(line);
    if st.mesg != "" { SoundParts(st.mesg); }
    if Stamp(line).Some? {
      StampPlays(st, line);
    } else {
      if st.mesg != "" {
        StamplessAppend(st.mesg, line);
        if Closed(line) { ClosedAppend(st.mesg, line); }
      }
      TextPlays(st, line);
    }
  }

  lemma SoundParts(a: string)
    ensures Sound(a) <==> a != "" && |a| <= MESG_MAX && Stampless(a) && Closed(a)
  {
    hide Stampless, Closed;
  }

  // A stamp sends what was gathered.
  lemma StampPlays(st: Progress, line: string)
    requires SoundSent(st) && (st.mesg == "" || Sound(st.mesg)) && Stamp(line).Some? && Stampless("")
    ensures var s := Play(st, line);
            SoundSent(s) && |s.mesg| <= MESG_MAX && Stampless(s.mesg) && (s.mesg == "" || Sound(s.mesg))
  {
    hide Stamp, Stampless, Closed, Sleep;
  }

  // Text is gathered, or sends what was gathered and starts anew.
  lemma TextPlays(st: Progress, line: string)
    requires SoundSent(st) && (st.mesg == "" || Sound(st.mesg)) && Stamp(line).None?
    requires line != "" && |line| <= LINE_MAX && Stampless(line) && (st.mesg != "" ==> Stampless(st.mesg + line))
    requires st.mesg != "" && Closed(line) ==> Closed(st.mesg + line)
    ensures var s := Play(st, line);
            && SoundSent(s) && |s.mesg| <= MESG_MAX && Stampless(s.mesg)
            && (Closed(line) ==> Sound(s.mesg))
  {
    hide Stamp, Stampless, Closed;
    assert st.mesg == "" ==> st.mesg + line == line;
  }

  lemma NoneStampless(line: string)
    ensures Stampless("") && (Chunks(line) == [line] && Stamp(line).None? ==> Stampless(line))
  {
    NoChunks([]);
    hide Chunks, Stamp;
  }

  // A read taken by itself is read the same way.
  lemma OneRead(file: string)
    requires NoNul(file) && file != ""
    ensures var i := ChunkEnd(file);
            && 0 < i <= |file| && i <= LINE_MAX && Chunks(file[..i]) == [file[..i]] && NoNul(file[i..])
            && Chunks(file) == [file[..i]] + Chunks(file[i..])
            && (i < |file| ==> Closed(file[..i]))
  {
    hide *;
    var i := ChunkEnd(file);
    NoNulCut(file, i);
    ChunksCons(file, i);
    ReadEnds(file);
    ReadAlone(file);
    if i < |file| { ClosedStep(file[..i]); }
  }

  // The read taken is its own only read.
  lemma ReadAlone(file: string)
    requires NoNul(file) && file != ""
    ensures var i := ChunkEnd(file);
            0 < i <= |file| && ChunkEnd(file[..i]) == i && Chunks(file[..i]) == [file[..i]]
  {
    hide *;
    var i := ChunkEnd(file);
    var line := file[..i];
    NoNulCut(file, i);
    ReadEnds(file);
    ShortRead(file);
    ChunksCons(line, i);
    NoChunks([]);
    assert line[..i] == line && line[i..] == "";
    assert [line] + [] == [line];
  }

  lemma ShortRead(file: string)
    requires file != ""
    ensures ChunkEnd(file[..ChunkEnd(file)]) == ChunkEnd(file)
  {
    var i := ChunkEnd(file);
    var line := file[..i];
    var f, g := Find(file, '\n'), Find(line, '\n');
    hide Find;
    assert forall k :: 0 <= k < i ==> line[k] == file[k];
  }

  // Over a whole file.
  lemma {:induction false} AllSound(st: Progress, file: string)
    requires SoundSent(st) && (st.mesg == "" || Sound(st.mesg)) && NoNul(file)
    ensures var s := PlayAll(st, Chunks(file)); SoundSent(s) && |s.mesg| <= MESG_MAX && Stampless(s.mesg)
    decreases |file|
  {
    hide *;
    if file == "" {
      NoneStampless("");
      NothingRead(st);
    } else {
      var i := ChunkEnd(file);
      OneRead(file);
      PlaySound(st, file[..i]);
      Ahead(st, Chunks(file));
      assert Chunks(file)[0] == file[..i] && Chunks(file)[1..] == Chunks(file[i..]);
      if i < |file| {
        AllSound(Play(st, file[..i]), file[i..]);
      } else {
        assert file[i..] == "";
        NothingRead(Play(st, file[..i]));
      }
    }
  }

  lemma NothingRead(st: Progress)
    ensures PlayAll(st, Chunks("")) == st
    ensures st.mesg == "" || Sound(st.mesg) ==> |st.mesg| <= MESG_MAX && (st.mesg == "" || Stampless(st.mesg))
  {
    NoChunks([]);
    hide Stampless, Closed;
  }

  /** Whatever the file, no datagram that a replay sends is empty, too long or holds a read that looks
      like a stamp, and all but the last end where a read does. */
  lemma SentSound(file: string)
    requires NoNul(file)
    ensures var r := Replayed(file).sent;
            && (forall i :: 0 <= i < |r| ==> r[i] != "" && |r[i]| <= MESG_MAX && Stampless(r[i]))
            && (forall i :: 0 <= i < |r| - 1 ==> Closed(r[i]))
  {
    AllSound(START, file);
    hide PlayAll, Chunks, Stampless, Closed;
  }

  lemma {:induction false} TextsAt(ds: seq<Dumped>)
    ensures |Texts(ds)| == |ds| && forall i :: 0 <= i < |ds| ==> Texts(ds)[i] == ds[i].text
  {
    if ds != [] { TextsAt(ds[1..]); }
  }

  lemma {:induction false} DumpNoNul(ds: seq<Dumped>)
    requires Dumps(ds)
    ensures NoNul(Dump(ds))
  {
    if ds != [] {
      StampShape(ds[0].at);
      TailDumps(ds);
      DumpNoNul(ds[1..]);
      hide StampLine, RealTime, Dump, Chunks;
      NoNulJoin(StampLine(ds[0].at), ds[0].text);
      NoNulJoin(StampLine(ds[0].at) + ds[0].text, Dump(ds[1..]));
      DumpCons(ds);
    }
  }

  lemma NoNulJoin(a: string, b: string)
    requires NoNul(a) && NoNul(b)
    ensures NoNul(a + b)
  {
  }

  lemma DumpCons(ds: seq<Dumped>)
    requires ds != []
    ensures Dump(ds) == StampLine(ds[0].at) + ds[0].text + Dump(ds[1..])
  {
  }

  /** Dump and replay undo each other, for every list of datagrams with real timestamps, exactly when
      none is empty, too long for the replay's buffer or holds a read that looks like a stamp line, and
      each but the last is closed. */
  lemma DumpRoundTrip(ds: seq<Dumped>)
    requires Dumps(ds)
    ensures Replayed(Dump(ds)).sent == Texts(ds) <==> Restorable(ds)
  {
    if Restorable(ds) {
      DumpReplays(ds);
    } else {
      DumpNoNul(ds);
      SentSound(Dump(ds));
      TextsAt(ds);
      hide Stampless, Closed, Replayed, Dump, Dumps, Texts;
    }
  }

  /** The agent's sound command has no newline at its end, so in a dump the next stamp is read as part
      of it, and the two datagrams do not come back. */
  lemma SoundCommandGlued(at: Time, file: string, next: Dumped)
    requires file != "" && |file| < LINE_MAX && '\n' !in file && NoNul(file)
    requires RealTime(at) && RealTime(next.at) && NoNul(next.text)
    ensures var ds := [Dumped(at, "PACKTERSE\n" + file), next]; Replayed(Dump(ds)).sent != Texts(ds)
  {
    hide *;
    var h := "PACKTERSE";
    SoundHead(file);
    OpenDatagram(at, h, file, next);
  }

  lemma SoundHead(file: string)
    requires NoNul(file)
    ensures var h := "PACKTERSE"; '\n' !in h && NoNul(h) && "PACKTERSE\n" + file == h + "\n" + file
  {
  }

  lemma OpenDatagram(at: Time, head: string, file: string, next: Dumped)
    requires file != "" && |file| < LINE_MAX && '\n' !in head && '\n' !in file && NoNul(head) && NoNul(file)
    requires RealTime(at) && RealTime(next.at) && NoNul(next.text)
    ensures var ds := [Dumped(at, head + "\n" + file), next]; Replayed(Dump(ds)).sent != Texts(ds)
  {
    var t := head + "\n" + file;
    var ds := [Dumped(at, t), next];
    hide *;
    TailBehind(head, file);
    ClosedIff(t);
    OpenDumps(at, head, file, next);
    assert ds[0].text == t;
    FirstOpen(ds);
    DumpRoundTrip(ds);
  }

  lemma OpenDumps(at: Time, head: string, file: string, next: Dumped)
    requires NoNul(head) && NoNul(file) && RealTime(at) && RealTime(next.at) && NoNul(next.text)
    ensures Dumps([Dumped(at, head + "\n" + file), next]) && LINE_MAX == 1023
  {
    NoNulJoin(head + "\n", file);
    hide RealTime;
  }

  lemma FirstOpen(ds: seq<Dumped>)
    requires |ds| > 1 && !Closed(ds[0].text)
    ensures !Restorable(ds)
  {
    hide Closed, Replayable;
  }

  lemma TailBehind(a: string, b: string)
    requires '\n' !in b
    ensures Tail(a + "\n" + b) == b
  {
    TailAppend(a + "\n", b);
    assert (a + "\n")[|a + "\n"| - 1] == '\n';
    assert "" + b == b;
  }

  /** For every file, the datagrams of its replay are in order exactly its text without the stamp lines,
      and each fits the gathering buffer. */
  lemma SentAll(file: string)
    ensures Joined(Replayed(file).sent) == Payload(Chunks(file))
    ensures forall i :: 0 <= i < |Replayed(file).sent| ==> |Replayed(file).sent[i]| <= MESG_MAX
  {
    hide Chunks, Joined, PlayAll, Payload;
    var s := PlayAll(START, Chunks(file));
    PlayKeeps(START, Chunks(file));
    NoneJoined();
    OutKeeps(s);
    ChunkSize(file);
    PlaySized(START, Chunks(file));
    assert "" + "" + Payload(Chunks(file)) == Payload(Chunks(file));
    assert Joined(Out(s).sent) + "" == Joined(Out(s).sent);
  }

  lemma NoneJoined()
    ensures Joined([]) == ""
  {
  }

  predicate TimesOrdered(ds: seq<Dumped>) {
    forall i :: 0 < i < |ds| ==> Micros(ds[i - 1].at) <= Micros(ds[i].at)
  }

  function Sum(s: seq<int>): int { if s == [] then 0 else s[0] + Sum(s[1..]) }

  // From a moment through the times of ds, no step takes 2^32 microseconds or more.
  predicate ShortGaps(now: Time, ds: seq<Dumped>)
    decreases |ds|
  {
    ds != [] ==> Micros(ds[0].at) - Micros(now) < SLEEP_WRAP && ShortGaps(ds[0].at, ds[1..])
  }

  lemma SleepIsElapsed(next: Time, now: Time)
    requires TimeValid(next) && TimeValid(now) && Micros(now) <= Micros(next)
    ensures 0 <= Sleep(next, now) <= Micros(next) - Micros(now)
    ensures Sleep(next, now) == Micros(next) - Micros(now) <==> Micros(next) - Micros(now) < SLEEP_WRAP
  {
    DiffsAreElapsed(next, now);
    hide DiffSec, DiffUsec;
  }

  lemma {:induction false} SleepsFrom(now: Time, ds: seq<Dumped>)
    requires Dumps(ds) && TimeValid(now) && TimesOrdered(ds)
    requires ds != [] ==> Micros(now) <= Micros(ds[0].at)
    ensures var last := if ds == [] then now else ds[|ds| - 1].at;
            && Sum(Gaps(now, ds)) <= Micros(last) - Micros(now)
            && (Sum(Gaps(now, ds)) == Micros(last) - Micros(now) <==> ShortGaps(now, ds))
    decreases |ds|
  {
    if ds != [] {
      SleepIsElapsed(ds[0].at, now);
      TailOrdered(ds);
      hide Sleep, Micros, Dumps, TimesOrdered;
      SleepsFrom(ds[0].at, ds[1..]);
      assert Gaps(now, ds)[1..] == Gaps(ds[0].at, ds[1..]);
    }
  }

  /** The sleeps of a replayed dump total the time from its first datagram to its last, exactly when no
      gap reaches 2^32 microseconds. */
  lemma SleepsTelescope(ds: seq<Dumped>)
    requires Dumps(ds) && ds != [] && TimesOrdered(ds) && Restorable(ds)
    ensures Sum(Replayed(Dump(ds)).slept) == Micros(ds[|ds| - 1].at) - Micros(ds[0].at)
       <==> ShortGaps(ds[0].at, ds[1..])
  {
    DumpReplays(ds);
    TailOrdered(ds);
    hide *;
    SleepsFrom(ds[0].at, ds[1..]);
  }

  lemma TailOrdered(ds: seq<Dumped>)
    requires Dumps(ds) && ds != [] && TimesOrdered(ds)
    ensures Dumps(ds[1..]) && TimesOrdered(ds[1..]) && TimeValid(ds[0].at)
    ensures |ds| > 1 ==> Micros(ds[0].at) <= Micros(ds[1..][0].at) && ds[1..][|ds| - 2] == ds[|ds| - 1]
  {
    hide Micros, Ended;
    assert forall i :: 0 < i < |ds| - 1 ==> ds[1..][i] == ds[i + 1] && ds[1..][i - 1] == ds[i];
    assert |ds| > 1 ==> Micros(ds[1 - 1].at) <= Micros(ds[1].at);
  }

  /** Lines of at most 1022 octets and their newlines are read whole, so then a stamp can only come from
      a line. */
  lemma {:induction false} ShortLinesWhole(line: string, rest: string)
    requires '\n' !in line && NoNul(line) && |line| <= LINE_MAX - 1
    ensures Chunks(line + "\n" + rest) == [line + "\n"] + Chunks(rest)
  {
    var s := line + "\n";
    assert NoNul(s) && Ended(s);
    NoNulString(s);
    assert Find(s, '\n') == |line|;
    hide Find, CString;
    ChunksCons(s, |s|);
    assert s[..|s|] == s && s[|s|..] == "";
    NoChunks([]);
    ChunksAppend(s, rest);
  }

  // ---- through the agent's sender ------------------------------------------------------------------------

  /** With the options a replay runs under, a message leaves at once, as it is, and the next one will. */
  lemma ReplaySendsAsIs(mac: Auth.Mac, st: Send.State, m: string, env: Env)
    requires st.rate == 1 && st.buf == ""
    ensures var cfg := Config(1, 0, "", []);
            var (s, out) := Step(cfg, st, Send.Send(m, env));
            s.rate == 1 && s.buf == "" && Wires(cfg, mac, out) == [m]
  {
    var cfg := Config(1, 0, "", []);
    hide ByteLen, Expired;
    WiresOne(cfg, mac, Datagram(m, env.postTs));
    assert Flushed(st.buf, env.preTs) == [];
    assert [] + [Datagram(m, env.postTs)] == [Datagram(m, env.postTs)];
  }
}
