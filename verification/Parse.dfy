/** The broker's lenient parser of the PACKTER text protocol. Coordinates are reals; reading an IP
    literal or a number that is not plain digits is a parameter. */
module Parse {
  import opened Wrappers
  import opened Text
  import Json
  import Sequences

  const KIND_LAY := 0
  const KIND_BALLISTIC := 1
  const KIND_GATEWAY := 2
  const KIND_EARTH := 3

  datatype FlyEvent = FlyEvent(kind: nat, sx: real, sy: real, dx: real, dy: real, flag: nat,
                               srcBoard: nat, dstBoard: nat, desc: string)

  datatype Parsed = Fly(ev: FlyEvent) | Ctrl(c: Json.Control)

  // What is outside this model: IP literals to the unit interval, and floats that are not all digits.
  datatype Reader = Reader(addr: string -> Option<real>, float: string -> Option<real>)

  function ParseFloat(rd: Reader, s: string): Option<real> {
    if s != "" && AllDigits(s) then Some(Value(s) as real) else rd.float(s)
  }

  // Legacy rule: a float in 0..1 stays, an integer in 1..65536 is divided by 65536.
  function NumericToUnit(rd: Reader, s: string): Option<real> {
    match ParseFloat(rd, s)
    case None => None
    case Some(v) =>
      if 1.0 <= v <= 65536.0 && '.' !in s then Some(v / 65536.0)
      else if 0.0 <= v <= 1.0 then Some(v)
      else None
  }

  function AddrToUnit(rd: Reader, s: string): Option<real> {
    var s := Trim(s);
    if s == "" then Some(0.5)
    else match rd.addr(s) case Some(v) => Some(v) case None => NumericToUnit(rd, s)
  }

  function PortToUnit(rd: Reader, s: string): Option<real> {
    var s := Trim(s);
    if s == "" then Some(0.5) else NumericToUnit(rd, s)
  }

  function ParseFlag(s: string): Option<nat> { ParseUnsigned(Trim(s), 0x1_0000_0000) }

  // SRC,DST,SRCPORT,DSTPORT,FLAG[,DESCRIPTION], or latitudes and longitudes for the earth kind.
  function ParseRecord(rd: Reader, line: string, kind: nat): Option<FlyEvent> {
    var parts := SplitN(line, ',', 6);
    if |parts| < 5 then None
    else
      var desc := if |parts| > 5 then parts[5] else "";
      if kind == KIND_EARTH then
        match (ParseFloat(rd, Trim(parts[0])), ParseFloat(rd, Trim(parts[1])), ParseFloat(rd, Trim(parts[2])),
               ParseFloat(rd, Trim(parts[3])), ParseFlag(parts[4]))
        case (Some(slat), Some(slon), Some(dlat), Some(dlon), Some(flag)) =>
          Some(FlyEvent(kind, (slon + 180.0) / 360.0, (slat + 90.0) / 180.0,
                        (dlon + 180.0) / 360.0, (dlat + 90.0) / 180.0, flag, 1, 0, desc))
        case _ => None
      else
        match (AddrToUnit(rd, parts[0]), AddrToUnit(rd, parts[1]), PortToUnit(rd, parts[2]),
               PortToUnit(rd, parts[3]), ParseFlag(parts[4]))
        case (Some(sx), Some(dx), Some(sy), Some(dy), Some(flag)) =>
          Some(FlyEvent(kind, sx, sy, dx, dy, flag, 1, 0, desc))
        case _ => None
  }

  function FlyHeader(s: string): Option<nat> {
    if s == "PACKTER" || s == "PACTER" then Some(KIND_LAY)
    else if s == "PACKTERBALLISTIC" then Some(KIND_BALLISTIC)
    else if s == "PACKTERWITHGATEWAY" then Some(KIND_GATEWAY)
    else if s == "PACKTEARTH" then Some(KIND_EARTH)
    else None
  }

  function ControlHeader(line: string, after: string): Option<Json.Control> {
    var payload := TrimEndOf(TrimEndOf(after, '\n'), '\r');
    if line == "PACKTERMSG" then
      match SplitOnce(payload, ',')
      case (pic, None) => Some(Json.Msg(payload, ""))
      case (pic, Some(html)) => Some(Json.Msg(pic, html))
    else if line == "PACKTERHTML" then Some(Json.Html(payload))
    else if line == "PACKTERSE" then Some(Json.Se(payload))
    else if line == "PACKTERSOUND" then
      match SplitOnce(payload, ',')
      case (time, None) => Some(Json.Sound("0", payload))
      case (time, Some(file)) => Some(Json.Sound(time, file))
    else if line == "PACKTERVOICE" then Some(Json.Voice(payload))
    else if line == "PACKTERSKYDOMETEXTURE" then Some(Json.Skydome(payload))
    else None
  }

  function FindSpace(s: string): (i: nat)
    ensures i <= |s| && (i < |s| ==> IsWhitespace(s[i]))
  {
    if s == "" || IsWhitespace(s[0]) then 0 else 1 + FindSpace(s[1..])
  }

  function Events(e: Option<FlyEvent>): seq<Parsed> { if e.Some? then [Fly(e.value)] else [] }

  // What one line does: items, the mode after it, and whether the rest of the datagram is consumed.
  datatype Effect = Effect(items: seq<Parsed>, inFly: bool, kind: nat, stop: bool)

  function Line(rd: Reader, line: string, after: string, inFly: bool, kind: nat): Effect {
    var i := FindSpace(line);
    if line == "" then Effect([], inFly, kind, false)
    else if FlyHeader(line).Some? then Effect([], true, FlyHeader(line).value, false)
    else if i < |line| && FlyHeader(line[..i]).Some? then
      var k := FlyHeader(line[..i]).value;
      Effect(Events(ParseRecord(rd, line[i + 1..], k)), true, k, false)
    else if ControlHeader(line, after).Some? then Effect([Ctrl(ControlHeader(line, after).value)], inFly, kind, true)
    else if "PACKTER" <= line || "PACTER" <= line then Effect([], false, kind, false)
    else if inFly then Effect(Events(ParseRecord(rd, line, kind)), inFly, kind, false)
    else Effect([], inFly, kind, false)
  }

  function ParseFrom(rd: Reader, rest: string, inFly: bool, kind: nat): seq<Parsed>
    decreases |rest|
  {
    if rest == "" then []
    else
      var (line, after) := SplitLine(rest);
      var e := Line(rd, line, after, inFly, kind);
      e.items + if e.stop then [] else ParseFrom(rd, after, e.inFly, e.kind)
  }

  function ParseText(rd: Reader, text: string): seq<Parsed> { ParseFrom(rd, text, false, KIND_LAY) }

  // The branches of the loop body, for one line.
  method ParseLine(rd: Reader, line: string, after: string, inFly0: bool, kind0: nat)
    returns (items: seq<Parsed>, inFly: bool, kind: nat, stop: bool)
    ensures Effect(items, inFly, kind, stop) == Line(rd, line, after, inFly0, kind0)
  {
    hide FlyHeader, ControlHeader, ParseRecord, FindSpace;
    items, inFly, kind, stop := [], inFly0, kind0, false;
    if line == "" {
      return;
    }
    if FlyHeader(line).Some? {
      inFly := true;
      kind := FlyHeader(line).value;
      return;
    }
    var i := FindSpace(line);
    if i < |line| && FlyHeader(line[..i]).Some? {
      inFly := true;
      kind := FlyHeader(line[..i]).value;
      items := Events(ParseRecord(rd, line[i + 1..], kind));
      return;
    }
    var ctrl := ControlHeader(line, after);
    if ctrl.Some? {
      items := [Ctrl(ctrl.value)];
      stop := true;
      return;
    }
    if "PACKTER" <= line || "PACTER" <= line {
      inFly := false;
      return;
    }
    if inFly {
      items := Events(ParseRecord(rd, line, kind));
    }
  }

  method ParseDatagram(rd: Reader, text: string) returns (items: seq<Parsed>)
    ensures items == ParseText(rd, text)
  {
    hide SplitLine, Line, ParseText;
    items := [];
    assert items + ParseFrom(rd, text, false, KIND_LAY) == ParseText(rd, text) by { TextFrom(rd, text); }
    var inFly := false;
    var flyKind: nat := KIND_LAY;
    var rest := text;
    while rest != ""
      invariant items + ParseFrom(rd, rest, inFly, flyKind) == ParseText(rd, text)
      decreases |rest|
    {
      var (line, after) := SplitLine(rest);
      var more, inFly', kind', stop := ParseLine(rd, line, after, inFly, flyKind);
      Sequences.Associate(items, more, if stop then [] else ParseFrom(rd, after, inFly', kind'));
      items := items + more;
      if stop {
        assert items + [] == items;
        return;
      }
      inFly, flyKind, rest := inFly', kind', after;
    }
    assert items + [] == items;
  }

  lemma TextFrom(rd: Reader, text: string)
    ensures [] + ParseFrom(rd, text, false, KIND_LAY) == ParseText(rd, text)
  {
    hide ParseFrom;
  }

  // ---- records ------------------------------------------------------------------------

  // A record line of the capture agent: its first character is a hexadecimal digit or a colon.
  predicate RecordLine(line: string) {
    line != "" && line[0] != 'P' && '\n' !in line
  }

  lemma RecordIsNoHeader(s: string, after: string)
    requires s != "" && s[0] != 'P'
    ensures FlyHeader(s).None? && ControlHeader(s, after).None? && !("PACKTER" <= s) && !("PACTER" <= s)
  {
    assert "PACKTER"[0] == 'P' && "PACTER"[0] == 'P' && "PACKTERBALLISTIC"[0] == 'P' && "PACKTERWITHGATEWAY"[0] == 'P';
    assert "PACKTEARTH"[0] == 'P' && "PACKTERMSG"[0] == 'P' && "PACKTERHTML"[0] == 'P' && "PACKTERSE"[0] == 'P';
    assert "PACKTERSOUND"[0] == 'P' && "PACKTERVOICE"[0] == 'P' && "PACKTERSKYDOMETEXTURE"[0] == 'P';
  }

  // What a record line contributes in record mode.
  function RecordItems(rd: Reader, line: string): seq<Parsed> {
    Events(ParseRecord(rd, TrimEndOf(line, '\r'), KIND_LAY))
  }

  lemma {:induction false} TrimKeepsFirst(s: string)
    ensures TrimEndOf(s, '\r') <= s
  {
    if s != "" && s[|s| - 1] == '\r' { TrimKeepsFirst(s[..|s| - 1]); }
  }

  lemma NoItems(rd: Reader)
    ensures ParseRecord(rd, "", KIND_LAY).None?
  {
    SplitLast("", ',');
  }

  lemma RecordEffect(rd: Reader, line: string, after: string)
    requires line != "" ==> line[0] != 'P'
    ensures Line(rd, line, after, true, KIND_LAY) == Effect(Events(ParseRecord(rd, line, KIND_LAY)), true, KIND_LAY, false)
  {
    if line == "" {
      NoItems(rd);
    } else {
      var i := FindSpace(line);
      RecordIsNoHeader(line, after);
      if 0 < i < |line| { RecordIsNoHeader(line[..i], after); }
      hide FlyHeader, ControlHeader, ParseRecord, FindSpace;
      assert FlyHeader("").None? by { EmptyNoHeader(); }
      if i == 0 { assert line[..i] == ""; }
    }
  }

  lemma EmptyNoHeader()
    ensures FlyHeader("").None?
  {
  }

  /** In record mode a record line is parsed alone, and what follows it is parsed as before. */
  lemma RecordThen(rd: Reader, line: string, rest: string)
    requires RecordLine(line)
    ensures ParseFrom(rd, line + "\n" + rest, true, KIND_LAY)
         == RecordItems(rd, line) + ParseFrom(rd, rest, true, KIND_LAY)
  {
    var s := line + "\n" + rest;
    SplitOnceAt(line, '\n', rest);
    assert line + ['\n'] + rest == s;
    var t := TrimEndOf(line, '\r');
    TrimKeepsFirst(line);
    RecordEffect(rd, t, rest);
    hide Line, TrimEndOf, SplitOnce, ParseRecord;
  }

  // A datagram of record lines: the header, then each line ended by a newline.
  function Lines(ls: seq<string>): string {
    if ls == [] then "" else ls[0] + "\n" + Lines(ls[1..])
  }

  function ItemsOf(rd: Reader, ls: seq<string>): seq<Parsed> {
    if ls == [] then [] else RecordItems(rd, ls[0]) + ItemsOf(rd, ls[1..])
  }

  lemma {:induction false} LinesParse(rd: Reader, ls: seq<string>)
    requires forall i :: 0 <= i < |ls| ==> RecordLine(ls[i])
    ensures ParseFrom(rd, Lines(ls), true, KIND_LAY) == ItemsOf(rd, ls)
  {
    if ls != [] {
      LinesParse(rd, ls[1..]);
      RecordThen(rd, ls[0], Lines(ls[1..]));
      hide RecordItems, ParseFrom;
    }
  }

  /** A bulk datagram means the concatenation, in order, of what its records mean one by one. */
  lemma BulkParses(rd: Reader, ls: seq<string>)
    requires forall i :: 0 <= i < |ls| ==> RecordLine(ls[i])
    ensures ParseText(rd, "PACKTER\n" + Lines(ls)) == ItemsOf(rd, ls)
  {
    var s := "PACKTER\n" + Lines(ls);
    var h := "PACKTER";
    assert s == h + ['\n'] + Lines(ls);
    SplitOnceAt(h, '\n', Lines(ls));
    assert TrimEndOf(h, '\r') == h;
    LinesParse(rd, ls);
    HeaderEffect(rd, Lines(ls));
    hide Line, TrimEndOf, SplitOnce, Lines, ItemsOf;
    assert [] + ItemsOf(rd, ls) == ItemsOf(rd, ls);
  }

  lemma HeaderEffect(rd: Reader, after: string)
    ensures Line(rd, "PACKTER", after, false, KIND_LAY) == Effect([], true, KIND_LAY, false)
  {
  }

  // ---- what a record of the agent means ------------------------------------------------------

  // An address token: no comma or whitespace, not starting with P, read by rd.
  predicate AddressToken(rd: Reader, a: string, at: real) {
    a != "" && a[0] != 'P' && ',' !in a && NoSpace(a) && rd.addr(a) == Some(at)
  }

  function RecordText(src: string, dst: string, sport: nat, dport: nat, flag: nat, desc: string): string {
    src + "," + dst + "," + Decimal(sport) + "," + Decimal(dport) + "," + Decimal(flag) + "," + desc
  }

  lemma InkIsTrimmed(a: string)
    requires NoSpace(a)
    ensures Trim(a) == a && '\n' !in a && '\r' !in a
  {
    TrimTrimmed(a);
  }

  lemma DecimalInk(n: nat)
    ensures AllDigits(Decimal(n)) && Value(Decimal(n)) == n && ',' !in Decimal(n) && '.' !in Decimal(n)
    ensures NoSpace(Decimal(n)) && Trim(Decimal(n)) == Decimal(n) && '\n' !in Decimal(n)
  {
    DecimalReads(n);
    DigitsAreInk(Decimal(n));
    InkIsTrimmed(Decimal(n));
    hide Decimal, Value;
  }

  lemma PortReads(rd: Reader, n: nat)
    requires n < 65536
    ensures PortToUnit(rd, Decimal(n)) == Some(n as real / 65536.0)
  {
    DecimalInk(n);
    hide Decimal, Value, Trim;
    if n == 0 { assert n as real / 65536.0 == 0.0; }
  }

  lemma SplitSix(a: string, b: string, c: string, d: string, e: string, f: string)
    requires ',' !in a && ',' !in b && ',' !in c && ',' !in d && ',' !in e
    ensures SplitN(a + "," + b + "," + c + "," + d + "," + e + "," + f, ',', 6) == [a, b, c, d, e, f]
  {
    var f4 := e + [','] + f;
    var f3 := d + [','] + f4;
    var f2 := c + [','] + f3;
    var f1 := b + [','] + f2;
    SixText(a, b, c, d, e, f);
    hide SplitN;
    SplitNCons(a, ',', f1, 6);
    SplitNCons(b, ',', f2, 5);
    SplitNCons(c, ',', f3, 4);
    SplitNCons(d, ',', f4, 3);
    SplitNCons(e, ',', f, 2);
    LastField(f);
    assert [a] + ([b] + ([c] + ([d] + ([e] + [f])))) == [a, b, c, d, e, f];
  }

  lemma LastField(f: string)
    ensures SplitN(f, ',', 1) == [f]
  {
  }

  lemma SixText(a: string, b: string, c: string, d: string, e: string, f: string)
    ensures a + "," + b + "," + c + "," + d + "," + e + "," + f
         == a + [','] + (b + [','] + (c + [','] + (d + [','] + (e + [','] + f))))
  {
  }

  lemma RecordShape(src: string, dst: string, sport: nat, dport: nat, flag: nat, desc: string)
    requires src != "" && src[0] != 'P' && NoSpace(src) && NoSpace(dst) && '\n' !in desc
    ensures var r := RecordText(src, dst, sport, dport, flag, desc);
            RecordLine(r) && TrimEndOf(r, '\r') == RecordText(src, dst, sport, dport, flag, TrimEndOf(desc, '\r'))
  {
    DecimalInk(sport);
    DecimalInk(dport);
    DecimalInk(flag);
    InkIsTrimmed(src);
    InkIsTrimmed(dst);
    hide Decimal, TrimEndOf, NoSpace;
    var pre := src + "," + dst + "," + Decimal(sport) + "," + Decimal(dport) + "," + Decimal(flag) + ",";
    assert pre[|pre| - 1] == ',' && pre[0] == src[0];
    TrimEndOfAppend(pre, desc, '\r');
    assert '\n' !in pre;
  }

  lemma SixFields(rd: Reader, line: string, a: string, b: string, c: string, d: string, e: string, f: string,
                  sx: real, dx: real, sy: real, dy: real, flag: nat)
    requires SplitN(line, ',', 6) == [a, b, c, d, e, f]
    requires AddrToUnit(rd, a) == Some(sx) && AddrToUnit(rd, b) == Some(dx)
    requires PortToUnit(rd, c) == Some(sy) && PortToUnit(rd, d) == Some(dy) && ParseFlag(e) == Some(flag)
    ensures ParseRecord(rd, line, KIND_LAY) == Some(FlyEvent(KIND_LAY, sx, sy, dx, dy, flag, 1, 0, f))
  {
    hide SplitN, AddrToUnit, PortToUnit, ParseFlag;
  }

  lemma AddressReads(rd: Reader, a: string, at: real)
    requires AddressToken(rd, a, at)
    ensures AddrToUnit(rd, a) == Some(at)
  {
    InkIsTrimmed(a);
    hide Trim, NoSpace;
  }

  lemma FlagReads(n: nat)
    requires n < 0x1_0000_0000
    ensures ParseFlag(Decimal(n)) == Some(n)
  {
    DecimalInk(n);
    PrintedUnsigned(n, 0x1_0000_0000);
    hide Decimal, Trim, ParseUnsigned;
  }

  /** Every field of an agent's record is recovered: both addresses, port/65536, the flag, and the
      description, commas included, less any carriage returns at its end. */
  lemma RecordMeans(rd: Reader, src: string, dst: string, sport: nat, dport: nat, flag: nat, desc: string,
                    sx: real, dx: real)
    requires AddressToken(rd, src, sx) && AddressToken(rd, dst, dx) && '\n' !in desc
    requires sport < 65536 && dport < 65536 && flag < 0x1_0000_0000
    ensures RecordItems(rd, RecordText(src, dst, sport, dport, flag, desc))
         == [Fly(FlyEvent(KIND_LAY, sx, sport as real / 65536.0, dx, dport as real / 65536.0, flag, 1, 0,
                          TrimEndOf(desc, '\r')))]
  {
    hide *;
    var d := TrimEndOf(desc, '\r');
    assert NoSpace(src) && NoSpace(dst) && src[0] != 'P' by { TokenInk(rd, src, sx); TokenInk(rd, dst, dx); }
    RecordShape(src, dst, sport, dport, flag, desc);
    TrimmedRecord(rd, src, dst, sport, dport, flag, d, sx, dx);
    ItemsFrom(rd, RecordText(src, dst, sport, dport, flag, desc), RecordText(src, dst, sport, dport, flag, d),
              FlyEvent(KIND_LAY, sx, sport as real / 65536.0, dx, dport as real / 65536.0, flag, 1, 0, d));
  }

  lemma TokenInk(rd: Reader, a: string, at: real)
    requires AddressToken(rd, a, at)
    ensures NoSpace(a) && a != "" && a[0] != 'P' && ',' !in a
  {
  }

  lemma ItemsFrom(rd: Reader, line: string, trimmed: string, ev: FlyEvent)
    requires TrimEndOf(line, '\r') == trimmed && ParseRecord(rd, trimmed, KIND_LAY) == Some(ev)
    ensures RecordItems(rd, line) == [Fly(ev)]
  {
    hide ParseRecord, TrimEndOf;
  }

  lemma TrimmedRecord(rd: Reader, src: string, dst: string, sport: nat, dport: nat, flag: nat, d: string,
                      sx: real, dx: real)
    requires AddressToken(rd, src, sx) && AddressToken(rd, dst, dx)
    requires sport < 65536 && dport < 65536 && flag < 0x1_0000_0000
    ensures ParseRecord(rd, RecordText(src, dst, sport, dport, flag, d), KIND_LAY)
         == Some(FlyEvent(KIND_LAY, sx, sport as real / 65536.0, dx, dport as real / 65536.0, flag, 1, 0, d))
  {
    hide AddrToUnit, Decimal, Trim, SplitN, PortToUnit, ParseFlag, ParseRecord, NoSpace, AllDigits, AddressToken;
    var p, q, g := Decimal(sport), Decimal(dport), Decimal(flag);
    assert ',' !in p && ',' !in q && ',' !in g by { DecimalInk(sport); DecimalInk(dport); DecimalInk(flag); }
    assert ',' !in src && ',' !in dst by { TokenInk(rd, src, sx); TokenInk(rd, dst, dx); }
    AddressReads(rd, src, sx);
    AddressReads(rd, dst, dx);
    PortReads(rd, sport);
    PortReads(rd, dport);
    FlagReads(flag);
    SplitSix(src, dst, p, q, g, d);
    SixFields(rd, RecordText(src, dst, sport, dport, flag, d), src, dst, p, q, g, d,
              sx, dx, sport as real / 65536.0, dport as real / 65536.0, flag);
  }
}
