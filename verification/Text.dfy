/** Text as both programs see it: Unicode strings, their UTF-8 octets, splitting, trimming, decimals. */
module Text {
  import opened Wrappers
  import opened Octets
  import Sequences

  // ---- UTF-8 ------------------------------------------------------------------------

  function Utf8Char(c: char): (b: Bytes)
    ensures 1 <= |b| <= 4 && (c as int < 0x80 ==> |b| == 1)
  {
    var n := c as int;
    if n < 0x80 then [n as u8]
    else if n < 0x800 then [(0xC0 + n / 0x40) as u8, (0x80 + n % 0x40) as u8]
    else if n < 0x1_0000 then [(0xE0 + n / 0x1000) as u8, (0x80 + n / 0x40 % 0x40) as u8, (0x80 + n % 0x40) as u8]
    else [(0xF0 + n / 0x4_0000) as u8, (0x80 + n / 0x1000 % 0x40) as u8, (0x80 + n / 0x40 % 0x40) as u8, (0x80 + n % 0x40) as u8]
  }

  function Utf8(s: string): Bytes {
    if s == "" then [] else Utf8Char(s[0]) + Utf8(s[1..])
  }

  function ByteLen(s: string): nat { |Utf8(s)| }

  lemma {:induction false} Utf8Append(a: string, b: string)
    ensures Utf8(a + b) == Utf8(a) + Utf8(b)
  {
    hide *;
    if a == "" {
      Utf8None();
      assert a + b == b && [] + Utf8(b) == Utf8(b);
    } else {
      Utf8Append(a[1..], b);
      assert (a + b)[1..] == a[1..] + b && (a + b)[0] == a[0];
      Utf8Cons(a);
      Utf8Cons(a + b);
      Sequences.Associate(Utf8Char(a[0]), Utf8(a[1..]), Utf8(b));
    }
  }

  lemma Utf8None()
    ensures Utf8("") == []
  {
  }

  lemma Utf8Cons(s: string)
    requires s != ""
    ensures Utf8(s) == Utf8Char(s[0]) + Utf8(s[1..])
  {
    hide Utf8Char;
  }

  lemma BytesAdd(a: string, b: string)
    ensures ByteLen(a + b) == ByteLen(a) + ByteLen(b)
  {
    Utf8Append(a, b);
  }

  predicate Ascii(s: string) { forall i :: 0 <= i < |s| ==> s[i] as int < 0x80 }

  lemma {:induction false} AsciiLen(s: string)
    requires Ascii(s)
    ensures ByteLen(s) == |s|
  {
    if s != "" {
      hide Utf8Char;
      AsciiLen(s[1..]);
    }
  }

  // ---- which octets are a text --------------------------------------------------------------

  predicate Continues(b: u8) { 0x80 <= b < 0xC0 }

  // How many octets the character takes that starts with b.
  function LeadLength(b: u8): nat { if b < 0x80 then 1 else if b < 0xE0 then 2 else if b < 0xF0 then 3 else 4 }

  lemma CharShape(c: char)
    ensures var b := Utf8Char(c);
            && !Continues(b[0]) && |b| == LeadLength(b[0])
            && forall k :: 1 <= k < |b| ==> Continues(b[k])
  {
  }

  lemma CharInjective(c: char, d: char)
    requires Utf8Char(c) == Utf8Char(d)
    ensures c == d
  {
    var m, n := c as int, d as int;
    CharShape(c);
    CharShape(d);
    assert n < 0x80 ==> m == n;
    if 0x80 <= n { LastDigits(m, n); }
  }

  // From the octets of the character back to its digits to the base 64.
  lemma LastDigits(m: nat, n: nat)
    requires 0x80 <= n < 0x11_0000 && 0x80 <= m < 0x11_0000 && (m < 0x800 <==> n < 0x800) && (m < 0x1_0000 <==> n < 0x1_0000)
    requires n < 0x800 ==> m / 0x40 == n / 0x40
    requires 0x800 <= n < 0x1_0000 ==> m / 0x1000 == n / 0x1000
    requires 0x1_0000 <= n ==> m / 0x4_0000 == n / 0x4_0000 && m / 0x1000 % 0x40 == n / 0x1000 % 0x40
    requires 0x800 <= n ==> m / 0x40 % 0x40 == n / 0x40 % 0x40
    requires m % 0x40 == n % 0x40
    ensures m == n
  {
    Nested(m);
    Nested(n);
    if 0x1_0000 <= n { SameDigits(m / 0x1000, n / 0x1000); }
    if 0x800 <= n { SameDigits(m / 0x40, n / 0x40); }
    SameDigits(m, n);
  }

  lemma Nested(m: nat)
    ensures m / 0x40 / 0x40 == m / 0x1000 && m / 0x1000 / 0x40 == m / 0x4_0000
  {
  }

  lemma SameDigits(m: nat, n: nat)
    requires m / 0x40 == n / 0x40 && m % 0x40 == n % 0x40
    ensures m == n
  {
  }

  // Octets that begin with a text's are a text only by continuing it.
  lemma {:induction false} TextPrefix(t: string, a: string, rest: Bytes)
    requires Utf8(t) == Utf8(a) + rest
    ensures a <= t && Utf8(t[|a|..]) == rest
  {
    hide *;
    if a == "" {
      Utf8None();
      assert t[0..] == t && [] + rest == rest;
    } else {
      Utf8Cons(a);
      FirstChar(t, a[0], Utf8(a[1..]) + rest);
      assert Utf8Char(a[0]) + Utf8(a[1..]) + rest == Utf8Char(a[0]) + (Utf8(a[1..]) + rest);
      TextPrefix(t[1..], a[1..], rest);
      assert a == [a[0]] + a[1..] && t == [t[0]] + t[1..] && t[1..][|a| - 1..] == t[|a|..];
    }
  }

  lemma FirstChar(t: string, c: char, rest: Bytes)
    requires Utf8(t) == Utf8Char(c) + rest
    ensures t != "" && t[0] == c && Utf8(t[1..]) == rest
  {
    if t == "" { Utf8None(); }
    var d := t[0];
    Utf8Cons(t);
    CharShape(c);
    CharShape(d);
    hide Utf8, Utf8Char, LeadLength;
    var x, y := Utf8Char(c), Utf8Char(d);
    assert Utf8(t)[0] == x[0] && Utf8(t)[0] == y[0];
    assert x == Utf8(t)[..|x|] && y == Utf8(t)[..|y|];
    CharInjective(c, d);
    assert (x + rest)[|x|..] == rest && (y + Utf8(t[1..]))[|y|..] == Utf8(t[1..]);
  }

  /** A text cut inside a character and followed by any other text is no text. */
  lemma CutIsNoText(a: string, c: char, k: nat, after: string, t: string)
    requires 0 < k < |Utf8Char(c)|
    ensures Utf8(t) != Utf8(a) + (Utf8Char(c)[..k] + Utf8(after))
  {
    var x := Utf8Char(c);
    if Utf8(t) == Utf8(a) + (x[..k] + Utf8(after)) {
      TextPrefix(t, a, x[..k] + Utf8(after));
      BrokenChar(t[|a|..], c, k, after);
    }
  }

  lemma BrokenChar(t: string, c: char, k: nat, after: string)
    requires 0 < k < |Utf8Char(c)|
    ensures Utf8(t) != Utf8Char(c)[..k] + Utf8(after)
  {
    hide *;
    var x, more := Utf8Char(c), Utf8(after);
    var u := x[..k] + more;
    Utf8None();
    TextLeads(after);
    assert u[0] == x[0] && (more != [] ==> u[k] == more[0]);
    if Utf8(t) == u { Continued(t, c); }
  }

  // A text that starts as a character does goes on as it does.
  lemma Continued(t: string, c: char)
    requires t != "" && Utf8(t) != [] && Utf8(t)[0] == Utf8Char(c)[0]
    ensures |Utf8(t)| >= |Utf8Char(c)| && forall k :: 1 <= k < |Utf8Char(c)| ==> Continues(Utf8(t)[k])
  {
    Utf8Cons(t);
    CharShape(c);
    CharShape(t[0]);
    hide *;
    assert forall k :: 0 <= k < |Utf8Char(t[0])| ==> Utf8(t)[k] == Utf8Char(t[0])[k];
  }

  lemma TextLeads(s: string)
    ensures Utf8(s) != [] ==> !Continues(Utf8(s)[0])
  {
    if s != "" {
      Utf8Cons(s);
      CharShape(s[0]);
    }
    hide Utf8Char;
  }

  // ---- lines, fields, trimming -----------------------------------------------------------

  function Find(s: string, c: char): (i: nat)
    ensures i <= |s| && (i < |s| ==> s[i] == c) && forall k :: 0 <= k < i ==> s[k] != c
  {
    if s == "" || s[0] == c then 0
    else
      var i := Find(s[1..], c);
      assert forall k :: 1 <= k < i + 1 ==> s[k] == s[1..][k - 1];
      i + 1
  }

  // The text before the first c and, if there is one, the text after it.
  function SplitOnce(s: string, c: char): (string, Option<string>) {
    var i := Find(s, c);
    if i == |s| then (s, None) else (s[..i], Some(s[i + 1..]))
  }

  lemma SplitOnceAt(a: string, c: char, b: string)
    requires c !in a
    ensures SplitOnce(a + [c] + b, c) == (a, Some(b))
  {
    var s := a + [c] + b;
    var i := Find(s, c);
    assert s[|a|] == c && forall k :: 0 <= k < |a| ==> s[k] == a[k];
    assert s[..|a|] == a && s[|a| + 1..] == b;
  }

  // At most n fields; the last keeps any further separators.
  function SplitN(s: string, c: char, n: nat): (fs: seq<string>)
    requires n > 0
    ensures 1 <= |fs| <= n
    decreases n
  {
    if n == 1 then [s]
    else
      match SplitOnce(s, c)
      case (a, None) => [a]
      case (a, Some(b)) => [a] + SplitN(b, c, n - 1)
  }

  function Split(s: string, c: char): (fs: seq<string>)
    ensures |fs| >= 1
    decreases |s|
  {
    match SplitOnce(s, c)
    case (a, None) => [a]
    case (a, Some(b)) => [a] + Split(b, c)
  }

  lemma SplitCons(a: string, c: char, b: string)
    requires c !in a
    ensures Split(a + [c] + b, c) == [a] + Split(b, c)
  {
    SplitOnceAt(a, c, b);
  }

  lemma SplitNCons(a: string, c: char, b: string, n: nat)
    requires c !in a && n > 1
    ensures SplitN(a + [c] + b, c, n) == [a] + SplitN(b, c, n - 1)
  {
    SplitOnceAt(a, c, b);
  }

  lemma SplitLast(a: string, c: char)
    requires c !in a
    ensures Split(a, c) == [a]
    ensures forall n: nat :: n > 0 ==> SplitN(a, c, n) == [a]
  {
  }

  // The characters with the Unicode White_Space property.
  predicate IsWhitespace(c: char) {
    var n := c as int;
    9 <= n <= 13 || n == 32 || n == 0x85 || n == 0xA0 || n == 0x1680 || 0x2000 <= n <= 0x200A
    || n == 0x2028 || n == 0x2029 || n == 0x202F || n == 0x205F || n == 0x3000
  }

  function TrimStart(s: string): string {
    if s != "" && IsWhitespace(s[0]) then TrimStart(s[1..]) else s
  }

  function TrimEnd(s: string): string {
    if s != "" && IsWhitespace(s[|s| - 1]) then TrimEnd(s[..|s| - 1]) else s
  }

  function Trim(s: string): string { TrimEnd(TrimStart(s)) }

  function TrimEndOf(s: string, c: char): string {
    if s != "" && s[|s| - 1] == c then TrimEndOf(s[..|s| - 1], c) else s
  }

  predicate NoSpace(s: string) { forall i :: 0 <= i < |s| ==> !IsWhitespace(s[i]) }

  predicate Trimmed(s: string) {
    s != "" ==> !IsWhitespace(s[0]) && !IsWhitespace(s[|s| - 1])
  }

  lemma TrimTrimmed(s: string)
    requires Trimmed(s)
    ensures Trim(s) == s
  {
  }

  // A trailing-character trim never reaches past another character.
  lemma {:induction false} TrimEndOfAppend(a: string, b: string, c: char)
    requires a != "" && a[|a| - 1] != c
    ensures TrimEndOf(a + b, c) == a + TrimEndOf(b, c)
  {
    var s := a + b;
    if b == "" {
      assert s == a;
    } else if b[|b| - 1] == c {
      assert s[..|s| - 1] == a + b[..|b| - 1];
      TrimEndOfAppend(a, b[..|b| - 1], c);
    } else {
      assert TrimEndOf(b, c) == b;
    }
  }

  // The first line, without its end, and what follows it.
  function SplitLine(s: string): (r: (string, string))
    ensures s != "" ==> |r.1| < |s|
  {
    match SplitOnce(s, '\n')
    case (a, None) => (TrimEndOf(a, '\r'), "")
    case (a, Some(b)) => (TrimEndOf(a, '\r'), b)
  }

  // ---- decimals ---------------------------------------------------------------------------

  predicate IsDigit(c: char) { '0' <= c <= '9' }

  predicate AllDigits(s: string) { forall i :: 0 <= i < |s| ==> IsDigit(s[i]) }

  function Digit(n: nat): char
    requires n < 10
  {
    '0' + n as char
  }

  function Decimal(n: nat): (s: string)
    ensures s != ""
  {
    if n < 10 then [Digit(n)] else Decimal(n / 10) + [Digit(n % 10)]
  }

  function Value(s: string): nat
    requires AllDigits(s)
  {
    if s == "" then 0 else 10 * Value(s[..|s| - 1]) + (s[|s| - 1] as int - '0' as int)
  }

  lemma {:induction false} DecimalReads(n: nat)
    ensures AllDigits(Decimal(n)) && Value(Decimal(n)) == n
  {
    if n >= 10 {
      DecimalReads(n / 10);
      var s := Decimal(n);
      assert s[..|s| - 1] == Decimal(n / 10);
    } else {
      assert Decimal(n)[..0] == "";
    }
  }

  // C's %ld.
  function PrintInt(z: int): string {
    if z < 0 then "-" + Decimal(-z) else Decimal(z)
  }

  // Rust's unsigned FromStr: an optional plus, digits, no overflow.
  function ParseUnsigned(s: string, bound: nat): Option<nat> {
    var d := if s != "" && s[0] == '+' then s[1..] else s;
    if d == "" || !AllDigits(d) || Value(d) >= bound then None else Some(Value(d))
  }

  // Rust's i64 FromStr.
  function ParseI64(s: string): Option<int> {
    if s != "" && s[0] == '-' then
      var d := s[1..];
      if d == "" || !AllDigits(d) || Value(d) > 0x8000_0000_0000_0000 then None
      else Some(0 - Value(d) as int)
    else
      match ParseUnsigned(s, 0x8000_0000_0000_0000)
      case None => None
      case Some(v) => Some(v)
  }

  /** A printed integer of 64 bits reads back as itself. */
  lemma PrintedReads(z: int)
    requires -0x8000_0000_0000_0000 <= z < 0x8000_0000_0000_0000
    ensures ParseI64(PrintInt(z)) == Some(z) && PrintInt(z) != ""
    ensures forall i :: 0 <= i < |PrintInt(z)| ==> PrintInt(z)[i] == '-' || IsDigit(PrintInt(z)[i])
  {
    var n: nat := if z < 0 then -z else z;
    DecimalReads(n);
    hide Decimal, Value;
    if z < 0 {
      SignedReads(Decimal(n), n);
    } else {
      PlainReads(Decimal(n), n);
    }
  }

  lemma SignedReads(d: string, n: nat)
    requires d != "" && AllDigits(d) && Value(d) == n && n <= 0x8000_0000_0000_0000
    ensures ParseI64("-" + d) == Some(0 - n as int)
    ensures forall i :: 0 <= i < |"-" + d| ==> ("-" + d)[i] == '-' || IsDigit(("-" + d)[i])
  {
    hide Value;
    assert ("-" + d)[1..] == d;
  }

  lemma PlainReads(d: string, n: nat)
    requires d != "" && AllDigits(d) && Value(d) == n && n < 0x8000_0000_0000_0000
    ensures ParseI64(d) == Some(n)
  {
    hide Value;
    assert IsDigit(d[0]);
  }

  lemma PrintedUnsigned(n: nat, bound: nat)
    requires n < bound
    ensures ParseUnsigned(Decimal(n), bound) == Some(n)
  {
    DecimalReads(n);
    hide Decimal, Value;
    assert IsDigit(Decimal(n)[0]);
  }

  lemma DigitsAreInk(s: string)
    requires forall i :: 0 <= i < |s| ==> s[i] == '-' || IsDigit(s[i])
    ensures NoSpace(s) && Ascii(s) && ',' !in s && '\n' !in s && Trimmed(s)
  {
  }
}
