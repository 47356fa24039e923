/** The agent's record printer: what a printed record means to the broker, and what happens to one that
    does not fit the 1024-octet message buffer. */
module Mesg {
  import opened Wrappers
  import opened Octets
  import opened Text
  import S = Send
  import P = Parse
  import EndToEnd
  import SendLaws
  import Sequences

  // Room for text in a message buffer.
  const ROOM := 1023

  // What the printer reads of the agent's options: the geographic lookup when it is switched on, the
  // flag offset, and the trace server to name in descriptions.
  datatype Context = Context(geo: Option<string -> Option<string>>, flagbase: int, trace: Option<string>)

  function Description(ctx: Context, desc: string): string {
    match ctx.trace case None => desc case Some(server) => desc + "-" + server
  }

  // The record line before it meets its buffer.
  function RecordLine(ctx: Context, src: string, dst: string, data1: int, data2: int, flag: int, desc: string): string {
    src + "," + dst + "," + PrintInt(data1) + "," + PrintInt(data2) + "," + PrintInt(flag + ctx.flagbase) + ","
    + Description(ctx, desc)
  }

  // The longest prefix of s within k octets.
  function Clip(s: string, k: nat): (r: string)
    ensures r <= s && ByteLen(r) <= k && (ByteLen(s) <= k ==> r == s)
  {
    if ByteLen(s) <= k then s else Clip(s[..|s| - 1], k)
  }

  // The message before it meets its buffer; none when an address has no coordinates.
  function FullText(ctx: Context, src: string, dst: string, data1: int, data2: int, flag: int, desc: string): string {
    match ctx.geo
    case None => S.HEADER + RecordLine(ctx, src, dst, data1, data2, flag, desc) + "\n"
    case Some(lookup) =>
      match (lookup(src), lookup(dst))
      case (Some(a), Some(b)) =>
        "PACKTEARTH\n" + a + "," + b + "," + PrintInt(flag + ctx.flagbase) + "," + Description(ctx, desc) + "\n"
      case _ => ""
  }

  // What the buffer keeps of a message's octets.
  function Cut(b: Bytes): Bytes { if |b| > ROOM then b[..ROOM] else b }

  // What a record message carries behind its header of eight octets.
  function Body(b: Bytes): Bytes { if |b| < 8 then [] else b[8..] }

  // The characters of the message that are in the buffer whole.
  function Printed(ctx: Context, src: string, dst: string, data1: int, data2: int, flag: int, desc: string): string {
    Clip(FullText(ctx, src, dst, data1, data2, flag, desc), ROOM)
  }

  // The buffer's end, if the message reaches it, is not inside a character.
  predicate CutBetween(m: string) { ByteLen(m) <= ROOM || ByteLen(Clip(m, ROOM)) == ROOM }

  // ---- a record that fits ------------------------------------------------------------------------

  lemma LineIsRecord(ctx: Context, src: string, dst: string, data1: nat, data2: nat, flag: int, desc: string)
    requires src != "" && src[0] != 'P' && NoSpace(src) && NoSpace(dst) && '\n' !in Description(ctx, desc)
    ensures P.RecordLine(RecordLine(ctx, src, dst, data1, data2, flag, desc))
  {
    hide *;
    PrintedLine(data1);
    PrintedLine(data2);
    PrintedLine(flag + ctx.flagbase);
    P.InkIsTrimmed(src);
    P.InkIsTrimmed(dst);
    Unbroken(src, dst, PrintInt(data1), PrintInt(data2), PrintInt(flag + ctx.flagbase), Description(ctx, desc));
    RecordLineIs(ctx, src, dst, data1, data2, flag, desc);
  }

  lemma PrintedLine(z: int)
    ensures '\n' !in PrintInt(z)
  {
    P.DecimalInk(if z < 0 then -z else z);
    hide Decimal;
  }

  lemma Unbroken(a: string, b: string, c: string, d: string, e: string, f: string)
    requires a != "" && a[0] != 'P'
    requires '\n' !in a && '\n' !in b && '\n' !in c && '\n' !in d && '\n' !in e && '\n' !in f
    ensures P.RecordLine(a + "," + b + "," + c + "," + d + "," + e + "," + f)
  {
    assert '\n' !in a + "," + b + ",";
    assert '\n' !in a + "," + b + "," + c + "," + d + ",";
    assert (a + "," + b + "," + c + "," + d + "," + e + "," + f)[0] == a[0];
  }

  lemma RecordLineIs(ctx: Context, src: string, dst: string, data1: int, data2: int, flag: int, desc: string)
    ensures RecordLine(ctx, src, dst, data1, data2, flag, desc)
         == src + "," + dst + "," + PrintInt(data1) + "," + PrintInt(data2) + "," + PrintInt(flag + ctx.flagbase) + ","
            + Description(ctx, desc)
  {
    hide PrintInt, Description;
  }

  lemma OneLine(rd: P.Reader, line: string)
    requires P.RecordLine(line)
    ensures P.ParseText(rd, S.HEADER + line + "\n") == P.RecordItems(rd, line)
    ensures EndToEnd.Good(S.HEADER + line + "\n")
  {
    hide P.ParseText, P.RecordItems;
    var m := S.HEADER + line + "\n";
    assert m[|S.HEADER|..|m| - 1] == line;
    EndToEnd.FlyMessage(rd, m);
  }

  /** A record within its buffer reads back field by field, with the flag offset added and the traced
      description whole, exactly when the offset flag is not negative; otherwise the broker drops it. */
  lemma PrintedMeans(rd: P.Reader, ctx: Context, src: string, dst: string, data1: nat, data2: nat, flag: int,
                     desc: string, sx: real, dx: real)
    requires ctx.geo.None? && P.AddressToken(rd, src, sx) && P.AddressToken(rd, dst, dx)
    requires data1 < 65536 && data2 < 65536 && -0x8000_0000 <= flag + ctx.flagbase < 0x8000_0000
    requires '\n' !in Description(ctx, desc)
    requires ByteLen(S.HEADER + RecordLine(ctx, src, dst, data1, data2, flag, desc) + "\n") <= ROOM
    ensures P.ParseText(rd, Printed(ctx, src, dst, data1, data2, flag, desc))
         == if flag + ctx.flagbase < 0 then []
            else [P.Fly(P.FlyEvent(P.KIND_LAY, sx, data1 as real / 65536.0, dx, data2 as real / 65536.0,
                                   flag + ctx.flagbase, 1, 0, TrimEndOf(Description(ctx, desc), '\r')))]
  {
    hide ByteLen, NoSpace, Description, P.ParseText, P.RecordItems, TrimEndOf, P.AddressToken, Decimal, PrintInt;
    var line := RecordLine(ctx, src, dst, data1, data2, flag, desc);
    P.TokenInk(rd, src, sx);
    P.TokenInk(rd, dst, dx);
    LineIsRecord(ctx, src, dst, data1, data2, flag, desc);
    OneLine(rd, line);
    Plain(data1);
    Plain(data2);
    if flag + ctx.flagbase < 0 {
      NegativeDropped(rd, src, dst, data1, data2, flag + ctx.flagbase, Description(ctx, desc));
    } else {
      Plain(flag + ctx.flagbase);
      P.RecordMeans(rd, src, dst, data1, data2, flag + ctx.flagbase, Description(ctx, desc), sx, dx);
    }
  }

  lemma Plain(n: nat)
    ensures PrintInt(n) == Decimal(n)
  {
  }

  lemma NegativeFlag(z: int)
    requires z < 0
    ensures P.ParseFlag(PrintInt(z)).None? && ',' !in PrintInt(z) && '\n' !in PrintInt(z)
  {
    P.DecimalInk(-z);
    hide Decimal, Value;
    TrimTrimmed(PrintInt(z));
    hide Trim;
    assert !IsDigit('-') && PrintInt(z)[0] == '-';
  }

  lemma NegativeDropped(rd: P.Reader, src: string, dst: string, data1: nat, data2: nat, z: int, desc: string)
    requires z < 0 && ',' !in src && ',' !in dst && src != ""
    ensures P.RecordItems(rd, src + "," + dst + "," + PrintInt(data1) + "," + PrintInt(data2) + "," + PrintInt(z) + "," + desc)
         == []
  {
    P.DecimalInk(data1);
    P.DecimalInk(data2);
    NegativeFlag(z);
    hide Decimal, TrimEndOf, PrintInt, P.ParseFlag, SplitN, P.AddrToUnit, P.PortToUnit, Trim, NoSpace;
    Plain(data1);
    Plain(data2);
    var pre := src + "," + dst + "," + PrintInt(data1) + "," + PrintInt(data2) + "," + PrintInt(z) + ",";
    assert pre[|pre| - 1] == ',';
    TrimEndOfAppend(pre, desc, '\r');
    P.SplitSix(src, dst, PrintInt(data1), PrintInt(data2), PrintInt(z), TrimEndOf(desc, '\r'));
  }

  // ---- a record that does not fit -----------------------------------------------------------------

  lemma {:induction false} ClipKeepsHeader(s: string, k: nat)
    requires S.HEADER <= s && 8 <= k
    ensures S.HEADER <= Clip(s, k)
    ensures ByteLen(s) > k ==> |Clip(s, k)| < |s|
  {
    S.HeaderBytes();
    hide ByteLen;
    if ByteLen(s) > k {
      assert s != S.HEADER;
      ClipKeepsHeader(s[..|s| - 1], k);
    }
  }

  /** The whole characters that are printed end in the record's newline exactly when the record fits; a
      cut one has lost its newline. */
  lemma GoodIffFits(line: string)
    requires P.RecordLine(line)
    ensures EndToEnd.Good(Clip(S.HEADER + line + "\n", ROOM)) <==> ByteLen(S.HEADER + line + "\n") <= ROOM
  {
    hide ByteLen, Clip;
    var m := S.HEADER + line + "\n";
    var c := Clip(m, ROOM);
    ClipKeepsHeader(m, ROOM);
    if ByteLen(m) <= ROOM {
      assert m[|S.HEADER|..|m| - 1] == line;
    } else {
      assert |c| > |S.HEADER| ==> c[|c| - 1] == line[|c| - 1 - |S.HEADER|];
    }
  }

  // A last line needs no newline to be read.
  lemma OpenLine(rd: P.Reader, line: string)
    requires P.RecordLine(line)
    ensures P.ParseText(rd, S.HEADER + line) == P.RecordItems(rd, line)
  {
    HeaderLine(line);
    LastLine(line);
    P.HeaderEffect(rd, line);
    P.TrimKeepsFirst(line);
    P.RecordEffect(rd, TrimEndOf(line, '\r'), "");
    hide P.Line, TrimEndOf, P.ParseRecord, SplitLine;
    var items := P.RecordItems(rd, line);
    assert P.ParseFrom(rd, "", true, P.KIND_LAY) == [];
    assert P.ParseFrom(rd, line, true, P.KIND_LAY) == items + [];
    assert [] + (items + []) == items;
  }

  lemma HeaderLine(rest: string)
    ensures SplitLine(S.HEADER + rest) == ("PACKTER", rest)
  {
    var h := "PACKTER";
    assert S.HEADER + rest == h + ['\n'] + rest;
    SplitOnceAt(h, '\n', rest);
    assert TrimEndOf(h, '\r') == h;
    hide SplitOnce, TrimEndOf;
  }

  lemma LastLine(line: string)
    requires '\n' !in line
    ensures SplitLine(line) == (TrimEndOf(line, '\r'), "")
  {
    hide TrimEndOf;
  }

  lemma NothingAlone(rd: P.Reader)
    ensures P.ParseText(rd, S.HEADER) == []
  {
    assert S.HEADER + "" == S.HEADER;
    HeaderLine("");
    P.HeaderEffect(rd, "");
    hide P.Line, SplitLine;
  }

  // The whole characters, and the beginning of one that is cut.
  lemma {:induction false} ClipStops(s: string, k: nat)
    requires ByteLen(s) > k
    ensures var p := Clip(s, k); |p| < |s| && ByteLen(p) <= k < ByteLen(p) + |Utf8Char(s[|p|])|
  {
    var n := |s| - 1;
    assert s == s[..n] + [s[n]];
    Utf8Append(s[..n], [s[n]]);
    OneCharacter(s[n]);
    if ByteLen(s[..n]) > k {
      ClipStops(s[..n], k);
    }
    hide Utf8, Utf8Char;
  }

  lemma OneCharacter(c: char)
    ensures Utf8([c]) == Utf8Char(c)
  {
    Utf8Cons([c]);
    Utf8None();
    assert [c][1..] == "";
    hide Utf8, Utf8Char;
  }

  // The octets in the buffer: those of the whole characters, and the first k of the next one.
  lemma CutOctets(m: string) returns (k: nat)
    requires ByteLen(m) > ROOM
    ensures var p := Clip(m, ROOM);
            && |p| < |m| && k == ROOM - ByteLen(p) < |Utf8Char(m[|p|])|
            && Cut(Utf8(m)) == Utf8(p) + Utf8Char(m[|p|])[..k]
  {
    var p := Clip(m, ROOM);
    ClipStops(m, ROOM);
    k := ROOM - ByteLen(p);
    var q := m[|p|..];
    assert m == p + q && q != "";
    Utf8Append(p, q);
    Utf8Cons(q);
    hide Clip, Utf8, Utf8Char;
    var x := Utf8Char(q[0]);
    assert Utf8(m) == Utf8(p) + (x + Utf8(q[1..]));
    assert (Utf8(p) + (x + Utf8(q[1..])))[..ROOM] == Utf8(p) + x[..k];
  }

  /** What is printed is a text, that of the whole characters, when the cut is between two; otherwise
      neither the message nor any datagram in which it is batched, whatever stands before and behind it,
      is a text, and the broker drops the datagram with all its records. */
  lemma PrintedIsText(m: string)
    ensures CutBetween(m) ==> Cut(Utf8(m)) == Utf8(Clip(m, ROOM))
    ensures !CutBetween(m) && S.HEADER <= m ==>
              forall before: string, after: string, t: string ::
                Utf8(t) != Utf8(before) + (Body(Cut(Utf8(m))) + Utf8(after))
  {
    hide *;
    if CutBetween(m) {
      CutText(m);
    } else if S.HEADER <= m {
      forall before: string, after: string, t: string
        ensures Utf8(t) != Utf8(before) + (Body(Cut(Utf8(m))) + Utf8(after))
      {
        CutNoText(m, before, after, t);
      }
    }
  }

  lemma CutText(m: string)
    requires CutBetween(m)
    ensures Cut(Utf8(m)) == Utf8(Clip(m, ROOM))
  {
    if ByteLen(m) > ROOM {
      var k := CutOctets(m);
      var p := Clip(m, ROOM);
      hide Clip, Cut, Utf8, Utf8Char;
      assert Utf8Char(m[|p|])[..0] == [] && Utf8(p) + [] == Utf8(p);
    }
  }

  lemma CutNoText(m: string, before: string, after: string, t: string)
    requires !CutBetween(m) && S.HEADER <= m
    ensures Utf8(t) != Utf8(before) + (Body(Cut(Utf8(m))) + Utf8(after))
  {
    var k := CutOctets(m);
    var p := Clip(m, ROOM);
    assert k > 0;
    hide *;
    ClipKeepsHeader(m, ROOM);
    var q := Behind(p);
    NoBatch(Cut(Utf8(m)), S.HEADER, q, m[|p|], k, before, after, t);
  }

  // A cut message whose first eight octets are h, without them and between two texts.
  lemma NoBatch(cut: Bytes, h: string, q: string, c: char, k: nat, before: string, after: string, t: string)
    requires |Utf8(h)| == 8 && 0 < k < |Utf8Char(c)| && cut == Utf8(h) + Utf8(q) + Utf8Char(c)[..k]
    ensures Utf8(t) != Utf8(before) + (Body(cut) + Utf8(after))
  {
    hide *;
    var part := Utf8Char(c)[..k];
    assert Utf8(before) + (Body(cut) + Utf8(after)) == Utf8(before + q) + (part + Utf8(after)) by {
      Utf8Append(before, q);
      Rearranged(Utf8(before), Utf8(h), Utf8(q), part, Utf8(after), cut);
    }
    CutIsNoText(before + q, c, k, after, t);
  }

  lemma Rearranged(b: Bytes, h: Bytes, r: Bytes, part: Bytes, z: Bytes, cut: Bytes)
    requires |h| == 8 && cut == h + r + part
    ensures b + (Body(cut) + z) == (b + r) + (part + z)
  {
    assert Body(cut) == r + part;
    hide Body;
    Sequences.Associate(r, part, z);
    Sequences.Associate(b, r, part + z);
  }

  lemma Behind(p: string) returns (q: string)
    requires S.HEADER <= p
    ensures Utf8(p) == Utf8(S.HEADER) + Utf8(q) && |Utf8(S.HEADER)| == 8
  {
    hide Utf8;
    q := p[|S.HEADER|..];
    assert p == S.HEADER + q;
    Utf8Append(S.HEADER, q);
    S.HeaderBytes();
  }

  /** A cut record spoils the record batched behind it. Cut between characters, the two are read as one
      line, at most one event arrives, and if each message alone means an event the batch does not mean
      the two; cut inside a character, the batch is no text and nothing of it is read. */
  lemma CutSwallowsNext(rd: P.Reader, line: string, next: string)
    requires P.RecordLine(line) && P.RecordLine(next) && ByteLen(S.HEADER + line + "\n") > ROOM
    ensures var m, m2 := S.HEADER + line + "\n", S.HEADER + next + "\n";
            var m1 := Clip(m, ROOM);
            var cut, batch := SendLaws.Strip(m1), S.HEADER + (SendLaws.Strip(m1) + SendLaws.Strip(m2));
            if CutBetween(m)
            then && Cut(Utf8(m)) == Utf8(m1) && cut <= line
                 && P.ParseText(rd, batch) == P.RecordItems(rd, cut + next)
                 && |P.ParseText(rd, batch)| <= 1
                 && (P.ParseText(rd, m1) != [] && P.ParseText(rd, m2) != [] ==>
                       P.ParseText(rd, batch) != P.ParseText(rd, m1) + P.ParseText(rd, m2))
            else forall t: string :: Utf8(t) != Utf8(S.HEADER) + (Body(Cut(Utf8(m))) + Utf8(next + "\n"))
  {
    hide *;
    var m := S.HEADER + line + "\n";
    PrintedIsText(m);
    HeaderFirst(line);
    var cut := CutLine(line);
    NextAppended(cut, next);
    OneLine(rd, cut + next);
    OneLine(rd, next);
    AtMostOne(rd, cut + next);
    AtMostOne(rd, next);
    if cut == "" {
      NothingAlone(rd);
      assert S.HEADER + cut == S.HEADER;
    } else {
      OpenLine(rd, cut);
      AtMostOne(rd, cut);
    }
  }

  lemma HeaderFirst(line: string)
    ensures S.HEADER <= S.HEADER + line + "\n"
  {
  }

  // What is left of a record that does not fit.
  lemma CutLine(line: string) returns (cut: string)
    requires P.RecordLine(line) && ByteLen(S.HEADER + line + "\n") > ROOM
    ensures var m1 := Clip(S.HEADER + line + "\n", ROOM); m1 == S.HEADER + cut && SendLaws.Strip(m1) == cut
    ensures cut <= line && (cut != "" ==> P.RecordLine(cut))
  {
    hide ByteLen, Clip;
    var m := S.HEADER + line + "\n";
    ClipKeepsHeader(m, ROOM);
    cut := Clip(m, ROOM)[|S.HEADER|..];
    assert m[|S.HEADER|..] == line + "\n";
  }

  lemma NextAppended(cut: string, next: string)
    requires (cut != "" ==> P.RecordLine(cut)) && P.RecordLine(next)
    ensures P.RecordLine(cut + next) && SendLaws.Strip(S.HEADER + next + "\n") == next + "\n"
    ensures S.HEADER + (cut + (next + "\n")) == S.HEADER + (cut + next) + "\n"
  {
    assert (S.HEADER + next + "\n")[|S.HEADER|..] == next + "\n";
  }

  lemma AtMostOne(rd: P.Reader, line: string)
    ensures |P.RecordItems(rd, line)| <= 1
  {
    hide P.ParseRecord, TrimEndOf;
  }

  lemma Fourteen(src: string, dst: string, d1: string, d2: string, f: string, desc: string)
    ensures ByteLen(S.HEADER + (src + "," + dst + "," + d1 + "," + d2 + "," + f + "," + desc) + "\n")
         == 14 + ByteLen(src) + ByteLen(dst) + ByteLen(d1) + ByteLen(d2) + ByteLen(f) + ByteLen(desc)
  {
    S.HeaderBytes();
    SendLaws.Punctuation();
    hide ByteLen;
    var front := src + "," + dst + "," + d1 + ",";
    var line := front + d2 + "," + f + "," + desc;
    SendLaws.Six(src, ",", dst, ",", d1, ",");
    SendLaws.Six(front, d2, ",", f, ",", desc);
    BytesAdd(S.HEADER, line);
    BytesAdd(S.HEADER + line, "\n");
  }

  lemma SomeBytes(s: string)
    requires s != ""
    ensures ByteLen(s) >= 1
  {
  }

  /** Such records exist: with a trace server name of 1004 octets or more, which its option buffer has
      room for, no record fits. */
  lemma LongServerCuts(ctx: Context, src: string, dst: string, data1: int, data2: int, flag: int, desc: string)
    requires ctx.trace.Some? && ByteLen(ctx.trace.value) >= 1004 && src != "" && dst != ""
    ensures ByteLen(S.HEADER + RecordLine(ctx, src, dst, data1, data2, flag, desc) + "\n") > ROOM
  {
    Fourteen(src, dst, PrintInt(data1), PrintInt(data2), PrintInt(flag + ctx.flagbase), Description(ctx, desc));
    SomeBytes(src);
    SomeBytes(dst);
    SomeBytes(PrintInt(data1));
    SomeBytes(PrintInt(data2));
    SomeBytes(PrintInt(flag + ctx.flagbase));
    SendLaws.OneChar('-');
    assert ['-'] == "-";
    hide ByteLen, PrintInt;
    BytesAdd(desc, "-");
    BytesAdd(desc + "-", ctx.trace.value);
  }

  // ---- the program ----------------------------------------------------------------------------------

  method PackterMesg(ctx: Context, src: string, dst: string, data1: int, data2: int, flag: int, desc: string)
    returns (mesg: Bytes)
    ensures mesg == Cut(Utf8(FullText(ctx, src, dst, data1, data2, flag, desc))) && |mesg| <= ROOM
  {
    assert Utf8("") == [];
    hide Utf8, PrintInt;
    var text := Description(ctx, desc);
    if ctx.geo.Some? {
      var a, b := ctx.geo.value(src), ctx.geo.value(dst);
      if a.None? || b.None? {
        return [];
      }
      return Cut(Utf8("PACKTEARTH\n" + a.value + "," + b.value + "," + PrintInt(flag + ctx.flagbase) + "," + text + "\n"));
    }
    mesg := Cut(Utf8(S.HEADER + RecordLine(ctx, src, dst, data1, data2, flag, desc) + "\n"));
  }
}
