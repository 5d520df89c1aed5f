/**
 * How Python's `json.dumps` writes a string with its default `ensure_ascii`: every
 * character outside printable ASCII becomes a `\uXXXX` escape (lower-case hex, a
 * surrogate pair above U+FFFF), and quote, backslash and the common control characters
 * get their two-character escapes. `Unescape` is the string part of `json.loads`, and
 * `UnescapeEscape` proves the two inverse.
 */
module JsonDumps {
  import opened Wrappers
  import opened Text

  predicate IsPrintableAscii(c: char) {
    ' ' <= c <= '~'
  }

  predicate AllPrintableAscii(s: string) {
    forall i :: 0 <= i < |s| ==> IsPrintableAscii(s[i])
  }

  function HexDigit(d: nat): (c: char)
    requires d < 16
    ensures IsPrintableAscii(c) && c != '"' && c != '\\'
  {
    if d < 10 then ('0' as int + d) as char else ('a' as int + d - 10) as char
  }

  /** The value of a hexadecimal digit of either case, as `json.loads` accepts it. */
  function HexValue(c: char): (r: Option<nat>)
    ensures r.Some? ==> r.value < 16
  {
    if '0' <= c <= '9' then Some(c as int - '0' as int)
    else if 'a' <= c <= 'f' then Some(c as int - 'a' as int + 10)
    else if 'A' <= c <= 'F' then Some(c as int - 'A' as int + 10)
    else None
  }

  lemma HexDigitValue(d: nat)
    requires d < 16
    ensures HexValue(HexDigit(d)) == Some(d)
  {
  }

  /** `'{0:04x}'.format(n)`. */
  function Hex4(n: nat): (h: string)
    requires n < 0x10000
    ensures |h| == 4 && AllPrintableAscii(h)
    ensures forall i :: 0 <= i < 4 ==> h[i] != '"' && h[i] != '\\'
  {
    [HexDigit(n / 0x1000), HexDigit(n / 0x100 % 0x10), HexDigit(n / 0x10 % 0x10), HexDigit(n % 0x10)]
  }

  /** The number four hexadecimal digits spell, if they are digits. */
  function Hex4Value(h: string): (r: Option<nat>)
    requires |h| == 4
    ensures r.Some? ==> r.value < 0x10000
  {
    match (HexValue(h[0]), HexValue(h[1]), HexValue(h[2]), HexValue(h[3]))
    case (Some(a), Some(b), Some(c), Some(d)) => Some(a * 0x1000 + b * 0x100 + c * 0x10 + d)
    case _ => None
  }

  lemma Hex4RoundTrip(n: nat)
    requires n < 0x10000
    ensures Hex4Value(Hex4(n)) == Some(n)
  {
    var a, b, c, d := n / 0x1000, n / 0x100 % 0x10, n / 0x10 % 0x10, n % 0x10;
    HexDigitValue(a);
    HexDigitValue(b);
    HexDigitValue(c);
    HexDigitValue(d);
    assert n / 0x10 == (n / 0x100) * 0x10 + c;
    assert n / 0x100 == a * 0x10 + b;
    assert n == (n / 0x10) * 0x10 + d;
  }

  function UnicodeEscape(n: nat): (e: string)
    requires n < 0x10000
    ensures |e| == 6 && e[0] == '\\' && e[1] == 'u' && e[2..] == Hex4(n) && AllPrintableAscii(e)
  {
    "\\u" + Hex4(n)
  }

  const HighSurrogates: nat := 0xD800
  const LowSurrogates: nat := 0xDC00
  const SurrogatesEnd: nat := 0xE000

  /** The two-character escapes `json` uses, keyed by the character escaped. */
  function ShortEscape(c: char): Option<char> {
    if c == '"' then Some('"')
    else if c == '\\' then Some('\\')
    else if c == '\n' then Some('n')
    else if c == '\r' then Some('r')
    else if c == '\t' then Some('t')
    else if c == '\U{8}' then Some('b')
    else if c == '\U{c}' then Some('f')
    else None
  }

  /** The character a two-character escape `\x` stands for; `/` is accepted on input only. */
  function ShortUnescape(x: char): Option<char> {
    if x == '"' then Some('"')
    else if x == '\\' then Some('\\')
    else if x == '/' then Some('/')
    else if x == 'n' then Some('\n')
    else if x == 'r' then Some('\r')
    else if x == 't' then Some('\t')
    else if x == 'b' then Some('\U{8}')
    else if x == 'f' then Some('\U{c}')
    else None
  }

  /** How `ensure_ascii` writes one character of a string. */
  function EscapeChar(c: char): (e: string)
    ensures |e| >= 1 && AllPrintableAscii(e)
    ensures e[0] == '\\' || (e == [c] && c != '"')
  {
    match ShortEscape(c)
    case Some(x) => ['\\', x]
    case None =>
      if IsPrintableAscii(c) then [c]
      else if c as int < 0x10000 then UnicodeEscape(c as int)
      else
        var n := c as int - 0x10000;
        UnicodeEscape(HighSurrogates + n / 0x400) + UnicodeEscape(LowSurrogates + n % 0x400)
  }

  /** The body of a JSON string literal, without the quotes. */
  function Escape(s: string): (e: string)
    ensures AllPrintableAscii(e)
  {
    if s == [] then [] else EscapeChar(s[0]) + Escape(s[1..])
  }

  /** A string as `json.dumps` writes it, quotes included. */
  function Quote(s: string): string {
    "\"" + Escape(s) + "\""
  }

  /**
   * The escapes of a JSON string body undone, as `json.loads` does: `None` for a
   * malformed escape and for a lone surrogate, which a Dafny string cannot hold.
   */
  function Unescape(t: string): Option<string>
    decreases |t|
  {
    if t == [] then Some([])
    else if t[0] != '\\' then Prepend(t[0], Unescape(t[1..]))
    else if |t| < 2 then None
    else if t[1] != 'u' then
      match ShortUnescape(t[1])
      case None => None
      case Some(c) => Prepend(c, Unescape(t[2..]))
    else if |t| < 6 then None
    else
      match Hex4Value(t[2..6])
      case None => None
      case Some(n) =>
        if n < HighSurrogates || SurrogatesEnd <= n then Prepend(n as char, Unescape(t[6..]))
        else if LowSurrogates <= n || |t| < 12 || t[6] != '\\' || t[7] != 'u' then None
        else
          match Hex4Value(t[8..12])
          case None => None
          case Some(m) =>
            if m < LowSurrogates || SurrogatesEnd <= m then None
            else Prepend((0x10000 + (n - HighSurrogates) * 0x400 + (m - LowSurrogates)) as char, Unescape(t[12..]))
  }

  function Prepend(c: char, r: Option<string>): Option<string> {
    match r
    case None => None
    case Some(s) => Some([c] + s)
  }

  /** Reading back one escaped character and then the rest gives that character, then the rest. */
  lemma UnescapeEscapeChar(c: char, rest: string)
    ensures Unescape(EscapeChar(c) + rest) == Prepend(c, Unescape(rest))
  {
    var t := EscapeChar(c) + rest;
    match ShortEscape(c)
    case Some(x) =>
      assert t[2..] == rest;
    case None =>
      if IsPrintableAscii(c) {
        assert t[1..] == rest;
      } else if c as int < 0x10000 {
        UnescapeBasic(c, rest);
      } else {
        UnescapePair(c, rest);
      }
  }

  /** A character of the basic plane outside printable ASCII comes back from its `\uXXXX`. */
  lemma UnescapeBasic(c: char, rest: string)
    requires c as int < 0x10000
    ensures Unescape(UnicodeEscape(c as int) + rest) == Prepend(c, Unescape(rest))
  {
    var t := UnicodeEscape(c as int) + rest;
    Hex4RoundTrip(c as int);
    assert t[2..6] == Hex4(c as int);
    assert t[6..] == rest;
  }

  /** A character above U+FFFF comes back from its surrogate pair. */
  lemma UnescapePair(c: char, rest: string)
    requires c as int >= 0x10000
    ensures var n := c as int - 0x10000;
      Unescape(UnicodeEscape(HighSurrogates + n / 0x400) + UnicodeEscape(LowSurrogates + n % 0x400) + rest)
        == Prepend(c, Unescape(rest))
  {
    var n := c as int - 0x10000;
    var hi, lo := HighSurrogates + n / 0x400, LowSurrogates + n % 0x400;
    var t := UnicodeEscape(hi) + UnicodeEscape(lo) + rest;
    Hex4RoundTrip(hi);
    Hex4RoundTrip(lo);
    assert t[2..6] == Hex4(hi);
    assert t[6] == '\\' && t[7] == 'u';
    assert t[8..12] == Hex4(lo);
    assert t[12..] == rest;
    assert 0x10000 + (hi - HighSurrogates) * 0x400 + (lo - LowSurrogates) == c as int;
  }

  /** `json.loads(json.dumps(s)) == s`, for the string body. */
  lemma {:induction false} UnescapeEscape(s: string)
    ensures Unescape(Escape(s)) == Some(s)
  {
    if s != [] {
      UnescapeEscape(s[1..]);
      UnescapeEscapeChar(s[0], Escape(s[1..]));
      assert [s[0]] + s[1..] == s;
    }
  }

  /** Printable ASCII other than '"' and '\\' is written as it is. */
  lemma {:induction false} EscapePlain(s: string)
    requires forall i :: 0 <= i < |s| ==> IsPrintableAscii(s[i]) && s[i] != '"' && s[i] != '\\'
    ensures Escape(s) == s
  {
    if s != [] {
      EscapePlain(s[1..]);
      assert [s[0]] + s[1..] == s;
    }
  }

  lemma AsciiConcat(a: string, b: string)
    requires AllPrintableAscii(a) && AllPrintableAscii(b)
    ensures AllPrintableAscii(a + b)
  {
  }

  lemma QuoteAscii(s: string)
    ensures AllPrintableAscii(Quote(s))
  {
    AsciiConcat("\"", Escape(s));
    AsciiConcat("\"" + Escape(s), "\"");
  }

  /** `str(n)` is made of decimal digits, so JSON writes it as it is. */
  lemma {:induction false} NatToStringAscii(n: nat)
    ensures |NatToString(n)| >= 1 && AllPrintableAscii(NatToString(n))
    decreases n
  {
    if n >= 10 {
      NatToStringAscii(n / 10);
    }
  }
}
