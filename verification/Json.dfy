/** JSON text frames: the broker's escaping and control encoding, against a reader of section 7 of
    RFC 8259. */
module Json {
  import opened Wrappers
  import opened Hexadecimal

  datatype Control =
    | Msg(pic: string, html: string)
    | Html(html: string)
    | Se(file: string)
    | Sound(time: string, file: string)
    | Voice(text: string)
    | Skydome(file: string)

  // ---- the broker's writer ------------------------------------------------------------

  function Escape(c: char): string {
    if c == '"' then "\\\""
    else if c == '\\' then "\\\\"
    else if c == '\n' then "\\n"
    else if c == '\r' then "\\r"
    else if c == '\t' then "\\t"
    else if c as int < 0x20 then "\\u00" + [HexDigit(c as int / 16), HexDigit(c as int % 16)]
    else [c]
  }

  function EscapeAll(s: string): string {
    if s == "" then "" else Escape(s[0]) + EscapeAll(s[1..])
  }

  method JsonEscape(s: string) returns (out: string)
    ensures out == EscapeAll(s)
  {
    hide Escape;
    out := "";
    var i := 0;
    assert s[0..] == s;
    while i < |s|
      invariant 0 <= i <= |s|
      invariant out + EscapeAll(s[i..]) == EscapeAll(s)
    {
      assert s[i..][0] == s[i] && s[i..][1..] == s[i + 1..];
      ghost var rest := EscapeAll(s[i + 1..]);
      assert out + (Escape(s[i]) + rest) == (out + Escape(s[i])) + rest;
      out := out + Escape(s[i]);
      i := i + 1;
    }
    assert s[i..] == "" && out + "" == out;
  }

  // "k":"text" for a text that is already escaped.
  function Pair(k: string, text: string): string {
    "\"" + k + "\"" + ":" + ("\"" + text + "\"")
  }

  function Two(t: string, k: string, v: string): string {
    "{" + (Pair("t", t) + "," + (Pair(k, EscapeAll(v)) + "}"))
  }

  function Three(t: string, k: string, v: string, l: string, w: string): string {
    "{" + (Pair("t", t) + "," + (Pair(k, EscapeAll(v)) + "," + (Pair(l, EscapeAll(w)) + "}")))
  }

  function ControlToJson(c: Control): string {
    match c
    case Msg(pic, html) => Three("msg", "pic", pic, "html", html)
    case Html(html) => Two("html", "html", html)
    case Se(file) => Two("se", "file", file)
    case Sound(time, file) => Three("sound", "time", time, "file", file)
    case Voice(text) => Two("voice", "text", text)
    case Skydome(file) => Two("skydome", "file", file)
  }

  // ---- a reader ---------------------------------------------------------------------------

  function Hex4(s: string): Option<nat>
    requires |s| >= 4
  {
    match (HexValue(s[0]), HexValue(s[1]), HexValue(s[2]), HexValue(s[3]))
    case (Some(a), Some(b), Some(c), Some(d)) => Some(4096 * a + 256 * b + 16 * c + d)
    case _ => None
  }

  function SimpleEscape(c: char): Option<char> {
    match c
    case '"' => Some('"') case '\\' => Some('\\') case '/' => Some('/')
    case 'b' => Some(8 as char) case 'f' => Some(12 as char)
    case 'n' => Some('\n') case 'r' => Some('\r') case 't' => Some('\t')
    case _ => None
  }

  // The character at the head of a string body, and how many characters of text it takes. A \u escape
  // of a surrogate is not a character by itself.
  function ReadChar(s: string): Option<(char, nat)> {
    if s == "" || s[0] == '"' || s[0] as int < 0x20 then None
    else if s[0] != '\\' then Some((s[0], 1))
    else if |s| < 2 then None
    else if s[1] == 'u' then
      if |s| < 6 then None
      else
        match Hex4(s[2..6])
        case Some(n) => if n < 0xD800 || 0xE000 <= n < 0x1_0000 then Some((n as char, 6)) else None
        case None => None
    else
      match SimpleEscape(s[1])
      case Some(c) => Some((c, 2))
      case None => None
  }

  // A string body up to its closing quote: the value and what follows the quote.
  function ReadBody(s: string): Option<(string, string)> {
    if s != "" && s[0] == '"' then Some(("", s[1..]))
    else
      match ReadChar(s)
      case None => None
      case Some((c, n)) =>
        if n > |s| || n == 0 then None
        else
          match ReadBody(s[n..])
          case None => None
          case Some((v, rest)) => Some(([c] + v, rest))
  }

  function ReadString(s: string): Option<(string, string)> {
    if s != "" && s[0] == '"' then ReadBody(s[1..]) else None
  }

  type Members = seq<(string, string)>

  // Members up to the closing brace, which must end the text.
  function ReadMembers(s: string): Option<Members>
    decreases |s|
  {
    match ReadString(s)
    case None => None
    case Some((key, after)) =>
      if after == "" || after[0] != ':' then None
      else
        match ReadString(after[1..])
        case None => None
        case Some((value, rest)) =>
          if rest == "}" then Some([(key, value)])
          else if rest != "" && rest[0] == ',' && |rest| < |s| then
            match ReadMembers(rest[1..])
            case None => None
            case Some(ms) => Some([(key, value)] + ms)
          else None
  }

  function ReadObject(s: string): Option<Members> {
    if s != "" && s[0] == '{' then ReadMembers(s[1..]) else None
  }

  // The viewer's dispatch on "t".
  function ReadControl(s: string): Option<Control> {
    match ReadObject(s)
    case None => None
    case Some(ms) =>
      if ms == [] || ms[0].0 != "t" then None
      else if |ms| == 3 && ms[0].1 == "msg" && ms[1].0 == "pic" && ms[2].0 == "html" then Some(Msg(ms[1].1, ms[2].1))
      else if |ms| == 3 && ms[0].1 == "sound" && ms[1].0 == "time" && ms[2].0 == "file" then Some(Sound(ms[1].1, ms[2].1))
      else if |ms| == 2 && ms[0].1 == "html" && ms[1].0 == "html" then Some(Html(ms[1].1))
      else if |ms| == 2 && ms[0].1 == "se" && ms[1].0 == "file" then Some(Se(ms[1].1))
      else if |ms| == 2 && ms[0].1 == "voice" && ms[1].0 == "text" then Some(Voice(ms[1].1))
      else if |ms| == 2 && ms[0].1 == "skydome" && ms[1].0 == "file" then Some(Skydome(ms[1].1))
      else None
  }

  // ---- the round trip ----------------------------------------------------------------------

  lemma EscapeReads(c: char, rest: string)
    ensures ReadChar(Escape(c) + rest) == Some((c, |Escape(c)|))
    ensures Escape(c) != "" && (Escape(c) + rest)[0] != '"' && (Escape(c) + rest)[|Escape(c)|..] == rest
  {
    var t := Escape(c) + rest;
    if c as int < 0x20 && c != '\n' && c != '\r' && c != '\t' {
      HexReads(c as int / 16);
      HexReads(c as int % 16);
      assert t[2..6] == "00" + [HexDigit(c as int / 16), HexDigit(c as int % 16)];
    }
  }

  /** Unescaping an escaped string, wherever it stands, gives the string back. */
  lemma {:induction false} EscapeRoundTrip(v: string, rest: string)
    ensures ReadBody(EscapeAll(v) + "\"" + rest) == Some((v, rest))
  {
    hide *;
    if v == "" {
      BodyEnds(rest);
    } else {
      var e, more := Escape(v[0]), EscapeAll(v[1..]) + "\"" + rest;
      EscapeCons(v, rest);
      EscapeReads(v[0], more);
      EscapeRoundTrip(v[1..], rest);
      BodyCons(e, v[0], more, v[1..], rest);
      assert v == [v[0]] + v[1..];
    }
  }

  lemma BodyEnds(rest: string)
    ensures ReadBody(EscapeAll("") + "\"" + rest) == Some(("", rest))
  {
    assert EscapeAll("") + "\"" + rest == "\"" + rest;
  }

  lemma EscapeCons(v: string, rest: string)
    requires v != ""
    ensures EscapeAll(v) + "\"" + rest == Escape(v[0]) + (EscapeAll(v[1..]) + "\"" + rest)
  {
    hide Escape;
  }

  // One character of the body, then what the rest of it reads as.
  lemma BodyCons(e: string, c: char, more: string, v: string, rest: string)
    requires ReadChar(e + more) == Some((c, |e|)) && e != "" && (e + more)[0] != '"' && (e + more)[|e|..] == more
    requires ReadBody(more) == Some((v, rest))
    ensures ReadBody(e + more) == Some(([c] + v, rest))
  {
    hide ReadChar;
  }

  // Text made of whole escapes and of characters that need none.
  predicate Sealed(t: string) {
    t == "" || (if t[0] == '\\' then |t| >= 2 && Sealed(t[2..]) else t[0] != '"' && Sealed(t[1..]))
  }

  lemma SealedPlain(c: char, t: string)
    requires Sealed(t) && c != '\\' && c != '"'
    ensures Sealed([c] + t)
  {
    assert ([c] + t)[1..] == t;
  }

  lemma SealedPair(c: char, t: string)
    requires Sealed(t)
    ensures Sealed(['\\', c] + t)
  {
    assert (['\\', c] + t)[2..] == t;
  }

  lemma SealedHex(c: char, d: char, t: string)
    requires Sealed(t) && c != '\\' && c != '"' && d != '\\' && d != '"'
    ensures Sealed("\\u00" + [c, d] + t)
  {
    hide Sealed;
    SealedPlain(d, t);
    SealedPlain(c, [d] + t);
    SealedPlain('0', [c] + ([d] + t));
    SealedPlain('0', "0" + ([c] + ([d] + t)));
    SealedPair('u', "0" + ("0" + ([c] + ([d] + t))));
    assert "\\u00" + [c, d] + t == "\\u" + ("0" + ("0" + ([c] + ([d] + t))));
  }

  lemma SealedEscape(c: char, t: string)
    requires Sealed(t)
    ensures Sealed(Escape(c) + t) && forall i :: 0 <= i < |Escape(c)| ==> Escape(c)[i] as int >= 0x20
  {
    hide Sealed;
    var e := Escape(c);
    if |e| == 1 {
      SealedPlain(c, t);
    } else if |e| == 2 {
      SealedPair(e[1], t);
    } else {
      SealedHex(e[4], e[5], t);
    }
  }

  /** Escaped text holds no control character and no quote outside an escape. */
  lemma {:induction false} EscapedIsSealed(s: string)
    ensures Sealed(EscapeAll(s))
    ensures forall i :: 0 <= i < |EscapeAll(s)| ==> EscapeAll(s)[i] as int >= 0x20
  {
    if s != "" {
      EscapedIsSealed(s[1..]);
      SealedEscape(s[0], EscapeAll(s[1..]));
      hide Sealed, Escape;
    }
  }

  // A key that needs no escaping.
  predicate Plain(k: string) { EscapeAll(k) == k }

  lemma StringReads(v: string, rest: string)
    ensures ReadString("\"" + EscapeAll(v) + "\"" + rest) == Some((v, rest))
  {
    var s := "\"" + EscapeAll(v) + "\"" + rest;
    assert s[1..] == EscapeAll(v) + "\"" + rest;
    EscapeRoundTrip(v, rest);
    hide EscapeAll, ReadBody;
  }

  lemma PairParts(k: string, x: string, rest: string)
    ensures Pair(k, x) + rest == "\"" + k + "\"" + (":" + ("\"" + x + "\"" + rest))
    ensures (":" + ("\"" + x + "\"" + rest))[1..] == "\"" + x + "\"" + rest
  {
  }

  // One member read, given what follows it.
  lemma MemberReads(k: string, v: string, rest: string)
    requires Plain(k)
    ensures var after := ":" + ("\"" + EscapeAll(v) + "\"" + rest);
            ReadString(Pair(k, EscapeAll(v)) + rest) == Some((k, after)) && ReadString(after[1..]) == Some((v, rest))
  {
    hide EscapeAll, ReadString, Pair;
    PairParts(k, EscapeAll(v), rest);
    StringReads(k, ":" + ("\"" + EscapeAll(v) + "\"" + rest));
    StringReads(v, rest);
  }

  lemma LastMember(k: string, v: string)
    requires Plain(k)
    ensures ReadMembers(Pair(k, EscapeAll(v)) + "}") == Some([(k, v)])
  {
    MemberReads(k, v, "}");
    hide EscapeAll, ReadString, Pair;
  }

  lemma NextMember(k: string, v: string, rest: string, ms: Members)
    requires Plain(k) && ReadMembers(rest) == Some(ms)
    ensures ReadMembers(Pair(k, EscapeAll(v)) + "," + rest) == Some([(k, v)] + ms)
  {
    hide EscapeAll, ReadString;
    var more := "," + rest;
    MemberReads(k, v, more);
    var s := Pair(k, EscapeAll(v)) + "," + rest;
    assert s == Pair(k, EscapeAll(v)) + more;
    assert more[1..] == rest;
    assert |more| < |s| && more[0] == ',' && "}"[0] == '}';
  }

  lemma {:induction false} PlainWord(k: string)
    requires forall i :: 0 <= i < |k| ==> 'a' <= k[i] <= 'z'
    ensures Plain(k)
  {
    if k != "" {
      PlainWord(k[1..]);
      assert Escape(k[0]) == [k[0]];
      assert k == [k[0]] + k[1..];
    }
  }

  lemma TwoReads(t: string, k: string, v: string)
    requires Plain(t) && Plain(k)
    ensures ReadObject(Two(t, k, v)) == Some([("t", t), (k, v)])
  {
    PlainWord("t");
    LastMember(k, v);
    assert EscapeAll(t) == t;
    hide ReadMembers, Pair, EscapeAll;
    NextMember("t", t, Pair(k, EscapeAll(v)) + "}", [(k, v)]);
    assert Two(t, k, v)[1..] == Pair("t", t) + "," + (Pair(k, EscapeAll(v)) + "}");
    assert [("t", t)] + [(k, v)] == [("t", t), (k, v)];
  }

  lemma ThreeReads(t: string, k: string, v: string, l: string, w: string)
    requires Plain(t) && Plain(k) && Plain(l)
    ensures ReadObject(Three(t, k, v, l, w)) == Some([("t", t), (k, v), (l, w)])
  {
    PlainWord("t");
    LastMember(l, w);
    assert EscapeAll(t) == t;
    hide ReadMembers, Pair, EscapeAll;
    var last := Pair(l, EscapeAll(w)) + "}";
    NextMember(k, v, last, [(l, w)]);
    NextMember("t", t, Pair(k, EscapeAll(v)) + "," + last, [(k, v)] + [(l, w)]);
    assert Three(t, k, v, l, w)[1..] == Pair("t", t) + "," + (Pair(k, EscapeAll(v)) + "," + last);
    assert [("t", t)] + ([(k, v)] + [(l, w)]) == [("t", t), (k, v), (l, w)];
  }

  lemma WordsOfThree()
    ensures Plain("msg") && Plain("pic") && Plain("html") && Plain("sound") && Plain("time") && Plain("file")
  {
    hide Plain;
    PlainWord("msg");
    PlainWord("pic");
    PlainWord("html");
    PlainWord("sound");
    PlainWord("time");
    PlainWord("file");
  }

  lemma WordsOfTwo()
    ensures Plain("html") && Plain("se") && Plain("file") && Plain("voice") && Plain("text") && Plain("skydome")
  {
    hide Plain;
    PlainWord("html");
    PlainWord("se");
    PlainWord("file");
    PlainWord("voice");
    PlainWord("text");
    PlainWord("skydome");
  }

  /** Every control, whatever its texts, reads back as itself from its JSON frame. */
  lemma ControlRoundTrip(c: Control)
    ensures ReadControl(ControlToJson(c)) == Some(c)
  {
    hide Plain, ReadObject, Two, Three;
    match c
    case Msg(pic, html) => WordsOfThree(); ThreeReads("msg", "pic", pic, "html", html);
    case Sound(time, file) => WordsOfThree(); ThreeReads("sound", "time", time, "file", file);
    case Html(v) => WordsOfTwo(); TwoReads("html", "html", v);
    case Se(v) => WordsOfTwo(); TwoReads("se", "file", v);
    case Voice(v) => WordsOfTwo(); TwoReads("voice", "text", v);
    case Skydome(v) => WordsOfTwo(); TwoReads("skydome", "file", v);
  }
}
