/** String quoting: what json.dumps writes, and what readers of JSON strings (RFC 8259,
    section 7) and of TOML basic strings (TOML v1.0.0, section String) read. */
module Quoting {
  import opened Wrappers

  // ---------------------------------------------------------------- hexadecimal

  function HexDigit(d: nat): char
    requires d < 16
  {
    if d < 10 then '0' + d as char else 'a' + (d - 10) as char
  }

  function HexValue(c: char): Option<nat> {
    if '0' <= c <= '9' then Some((c - '0') as nat)
    else if 'a' <= c <= 'f' then Some((c - 'a') as nat + 10)
    else if 'A' <= c <= 'F' then Some((c - 'A') as nat + 10)
    else None
  }

  function Hex4(n: nat): string
    requires n < 0x10000
  {
    [HexDigit(n / 4096), HexDigit(n / 256 % 16), HexDigit(n / 16 % 16), HexDigit(n % 16)]
  }

  /** The number that the first k characters spell. */
  function ReadHex(s: string, k: nat): Option<nat>
    requires k <= |s|
  {
    if k == 0 then Some(0) else
    match (ReadHex(s, k - 1), HexValue(s[k - 1]))
    case (Some(high), Some(low)) => Some(16 * high + low)
    case _ => None
  }

  lemma HexDigitReads(d: nat)
    requires d < 16
    ensures HexValue(HexDigit(d)) == Some(d)
  {
  }

  lemma FourDigits(n: nat)
    requires n < 0x10000
    ensures 16 * (16 * (16 * (n / 4096) + n / 256 % 16) + n / 16 % 16) + n % 16 == n
  {
  }

  lemma Hex4Reads(n: nat, rest: string)
    requires n < 0x10000
    ensures ReadHex(Hex4(n) + rest, 4) == Some(n)
  {
    var s := Hex4(n) + rest;
    var (a, b, c, d) := (n / 4096, n / 256 % 16, n / 16 % 16, n % 16);
    HexDigitReads(a);
    HexDigitReads(b);
    HexDigitReads(c);
    HexDigitReads(d);
    assert ReadHex(s, 0) == Some(0);
    assert ReadHex(s, 1) == Some(a);
    assert ReadHex(s, 2) == Some(16 * a + b);
    assert ReadHex(s, 3) == Some(16 * (16 * a + b) + c);
    FourDigits(n);
  }

  // ---------------------------------------------------------------- writing

  /** Code points beyond the basic multilingual plane are written as a surrogate pair. */
  predicate IsAstral(c: char) {
    c as int >= 0x10000
  }

  function HighSurrogate(c: char): nat
    requires IsAstral(c)
  {
    0xD800 + (c as int - 0x10000) / 0x400
  }

  function LowSurrogate(c: char): nat
    requires IsAstral(c)
  {
    0xDC00 + (c as int - 0x10000) % 0x400
  }

  /** The two-character escapes. */
  function ShortEscape(c: char): Option<char> {
    if c == '"' then Some('"')
    else if c == '\\' then Some('\\')
    else if c == '\n' then Some('n')
    else if c == '\r' then Some('r')
    else if c == '\t' then Some('t')
    else if c == '\U{0008}' then Some('b')
    else if c == '\U{000C}' then Some('f')
    else None
  }

  function Unicode(n: nat): string
    requires n < 0x10000
  {
    "\\u" + Hex4(n)
  }

  function EscapeChar(c: char): string {
    match ShortEscape(c)
    case Some(letter) => ['\\', letter]
    case None =>
      if ' ' <= c <= '~' then [c]
      else if IsAstral(c) then
        assert c as int < 0x110000;
        Unicode(HighSurrogate(c)) + Unicode(LowSurrogate(c))
      else Unicode(c as int)
  }

  function Escape(s: string): string {
    if s == "" then "" else EscapeChar(s[0]) + Escape(s[1..])
  }

  /** json.dumps of a string, which is also what _toml prints. */
  function Quote(s: string): string {
    "\"" + Escape(s) + "\""
  }

  // ---------------------------------------------------------------- reading

  datatype Dialect = JsonText | TomlText

  /** One character read, and how much of the text it took. */
  datatype Read = Read(c: char, taken: nat)

  predicate IsHighSurrogate(n: nat) {
    0xD800 <= n < 0xDC00
  }

  predicate IsLowSurrogate(n: nat) {
    0xDC00 <= n < 0xE000
  }

  /** The character with this code point, if it is a Unicode scalar value. */
  function Scalar(n: nat): Option<char> {
    if n < 0xD800 || 0xE000 <= n < 0x110000 then Some(n as char) else None
  }

  /** The escape letters that both dialects share; JSON has the slash as well. */
  function ShortUnescape(d: Dialect, letter: char): Option<char> {
    if letter == '"' then Some('"')
    else if letter == '\\' then Some('\\')
    else if letter == 'n' then Some('\n')
    else if letter == 'r' then Some('\r')
    else if letter == 't' then Some('\t')
    else if letter == 'b' then Some('\U{0008}')
    else if letter == 'f' then Some('\U{000C}')
    else if letter == '/' && d.JsonText? then Some('/')
    else None
  }

  /** A \uXXXX escape at the head of t.  JSON pairs surrogates; in TOML an escape must be a
      scalar value by itself. */
  function ReadUnicode(d: Dialect, t: string): Option<Read>
    requires "\\u" <= t
  {
    if |t| < 6 then None else
    match ReadHex(t[2..], 4)
    case None => None
    case Some(n) =>
      if d.JsonText? && IsHighSurrogate(n) then
        if |t| < 12 || t[6..8] != "\\u" then None else
        (match ReadHex(t[8..], 4)
         case Some(low) =>
           if IsLowSurrogate(low)
           then Some(Read((0x10000 + (n - 0xD800) * 0x400 + (low - 0xDC00)) as char, 12))
           else None
         case None => None)
      else
        match Scalar(n)
        case Some(c) => Some(Read(c, 6))
        case None => None
  }

  /** TOML's \UXXXXXXXX. */
  function ReadLongUnicode(t: string): Option<Read> {
    if |t| < 10 then None else
    match ReadHex(t[2..], 8)
    case None => None
    case Some(n) =>
      match Scalar(n)
      case Some(c) => Some(Read(c, 10))
      case None => None
  }

  /** Characters that may stand for themselves. */
  predicate MayStandAlone(d: Dialect, c: char) {
    match d
    case JsonText => c as int >= 0x20
    case TomlText => (c as int >= 0x20 && c as int != 0x7F) || c == '\t'
  }

  function ReadChar(d: Dialect, t: string): (r: Option<Read>)
    requires t != "" && t[0] != '"'
    ensures r.Some? ==> 0 < r.value.taken <= |t|
  {
    if t[0] != '\\' then
      if MayStandAlone(d, t[0]) then Some(Read(t[0], 1)) else None
    else if |t| < 2 then None
    else if t[1] == 'u' then ReadUnicode(d, t)
    else if t[1] == 'U' && d.TomlText? then ReadLongUnicode(t)
    else
      match ShortUnescape(d, t[1])
      case Some(c) => Some(Read(c, 2))
      case None => None
  }

  /** Reads up to the closing quote: the string, and what follows the quote. */
  function ReadBody(d: Dialect, t: string): (r: Option<(string, string)>)
    ensures r.Some? ==> |r.value.1| < |t|
    decreases |t|
  {
    if t == "" then None
    else if t[0] == '"' then Some(("", t[1..]))
    else
      match ReadChar(d, t)
      case None => None
      case Some(Read(c, taken)) =>
        match ReadBody(d, t[taken..])
        case None => None
        case Some((s, rest)) => Some(([c] + s, rest))
  }

  function ReadString(d: Dialect, t: string): (r: Option<(string, string)>)
    ensures r.Some? ==> |r.value.1| < |t|
  {
    if t != "" && t[0] == '"' then ReadBody(d, t[1..]) else None
  }

  // ---------------------------------------------------------------- round trips

  lemma UnicodeReads(d: Dialect, c: char, rest: string)
    requires !IsAstral(c)
    ensures ReadUnicode(d, Unicode(c as int) + rest) == Some(Read(c, 6))
  {
    var t := Unicode(c as int) + rest;
    assert t[2..] == Hex4(c as int) + rest;
    Hex4Reads(c as int, rest);
  }

  lemma PairReads(c: char, rest: string)
    requires IsAstral(c)
    ensures HighSurrogate(c) < 0x10000 && LowSurrogate(c) < 0x10000
    ensures ReadUnicode(JsonText, Unicode(HighSurrogate(c)) + (Unicode(LowSurrogate(c)) + rest)) == Some(Read(c, 12))
    ensures ReadUnicode(TomlText, Unicode(HighSurrogate(c)) + (Unicode(LowSurrogate(c)) + rest)) == None
  {
    assert c as int < 0x110000;
    var (high, low) := (HighSurrogate(c), LowSurrogate(c));
    var tail := Unicode(low) + rest;
    var t := Unicode(high) + tail;
    assert t[2..] == Hex4(high) + tail;
    Hex4Reads(high, tail);
    assert t[6..8] == tail[..2] == "\\u";
    assert t[8..] == Hex4(low) + rest;
    Hex4Reads(low, rest);
  }

  /** One written character reads back as itself in JSON, and in TOML unless it is astral,
      where the text is not valid TOML at all. */
  lemma CharReads(d: Dialect, c: char, rest: string)
    ensures EscapeChar(c) != "" && EscapeChar(c)[0] != '"'
    ensures ReadChar(d, EscapeChar(c) + rest) ==
      if d.TomlText? && IsAstral(c) then None else Some(Read(c, |EscapeChar(c)|))
  {
    var t := EscapeChar(c) + rest;
    if ShortEscape(c).None? && !(' ' <= c <= '~') {
      if IsAstral(c) {
        assert c as int < 0x110000;
        assert t == Unicode(HighSurrogate(c)) + (Unicode(LowSurrogate(c)) + rest);
        PairReads(c, rest);
      } else {
        UnicodeReads(d, c, rest);
      }
    }
  }

  predicate HasAstral(s: string) {
    exists i :: 0 <= i < |s| && IsAstral(s[i])
  }

  lemma {:induction false} BodyReads(d: Dialect, s: string, rest: string)
    ensures ReadBody(d, Escape(s) + ("\"" + rest)) ==
      if d.TomlText? && HasAstral(s) then None else Some((s, rest))
  {
    var t := Escape(s) + ("\"" + rest);
    if s != "" {
      var tail := Escape(s[1..]) + ("\"" + rest);
      assert t == EscapeChar(s[0]) + tail;
      CharReads(d, s[0], tail);
      assert t[|EscapeChar(s[0])|..] == tail;
      BodyReads(d, s[1..], rest);
      assert HasAstral(s) <==> IsAstral(s[0]) || HasAstral(s[1..]) by {
        if HasAstral(s) && !IsAstral(s[0]) {
          var i :| 0 <= i < |s| && IsAstral(s[i]);
          assert s[1..][i - 1] == s[i];
        }
        if HasAstral(s[1..]) {
          var i :| 0 <= i < |s[1..]| && IsAstral(s[1..][i]);
          assert s[i + 1] == s[1..][i];
        }
      }
      assert [s[0]] + s[1..] == s;
    } else {
      assert t == "\"" + rest;
    }
  }

  /** What json.dumps writes for a string reads back as that string in JSON, always. */
  lemma QuoteReadsInJson(s: string, rest: string)
    ensures ReadString(JsonText, Quote(s) + rest) == Some((s, rest))
  {
    assert (Quote(s) + rest)[1..] == Escape(s) + ("\"" + rest);
    BodyReads(JsonText, s, rest);
  }

  /** ... and in TOML exactly if it has no astral character; otherwise it is not TOML. */
  lemma QuoteReadsInToml(s: string, rest: string)
    ensures ReadString(TomlText, Quote(s) + rest) == if HasAstral(s) then None else Some((s, rest))
  {
    assert (Quote(s) + rest)[1..] == Escape(s) + ("\"" + rest);
    BodyReads(TomlText, s, rest);
  }
}
