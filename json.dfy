/**
  JSON text for string values (RFC 8259, section 7), as `JSON.stringify` writes it:
  the two-character escapes for `"`, `\`, backspace, form feed, line feed,
  carriage return and tab, `\u00xx` with lower-case hex digits for the other
  control characters, every other code point as itself.
  `DecodeString` reads such a string back; it accepts every escape of section 7
  except surrogate pairs.
*/
module Json {
  import opened Common

  function HexDigit(n: nat): (c: char)
    requires n < 16
  {
    if n < 10 then ('0' as int + n) as char else ('a' as int + n - 10) as char
  }

  function HexValue(c: char): (r: Option<nat>)
    ensures r.Some? ==> r.value < 16
  {
    if '0' <= c <= '9' then Some(c as int - '0' as int)
    else if 'a' <= c <= 'f' then Some(c as int - 'a' as int + 10)
    else if 'A' <= c <= 'F' then Some(c as int - 'A' as int + 10)
    else None
  }

  lemma HexValueOfDigit(n: nat)
    requires n < 16
    ensures HexValue(HexDigit(n)) == Some(n)
  {
  }

  /** The text `JSON.stringify` writes for one code point inside a string literal. */
  function EscapeChar(c: char): (r: string)
    ensures |r| >= 1
    ensures forall i :: 0 <= i < |r| ==> r[i] as int >= 0x20
    ensures r[0] != '"'
  {
    if c == '\U{0008}' then "\\b"
    else if c == '\t' then "\\t"
    else if c == '\n' then "\\n"
    else if c == '\U{000C}' then "\\f"
    else if c == '\r' then "\\r"
    else if c == '"' then "\\\""
    else if c == '\\' then "\\\\"
    else if (c as int) < 0x20 then "\\u00" + [HexDigit(c as int / 16), HexDigit(c as int % 16)]
    else [c]
  }

  function EscapeBody(s: string): (r: string)
    ensures forall i :: 0 <= i < |r| ==> r[i] as int >= 0x20
  {
    if s == [] then [] else EscapeChar(s[0]) + EscapeBody(s[1..])
  }

  /** `JSON.stringify(s)` for a string s: a JSON string literal that holds no control character. */
  function Quote(s: string): (r: string)
    ensures |r| >= 2 && r[0] == '"' && r[|r| - 1] == '"'
    ensures '\n' !in r && '\r' !in r
  {
    "\"" + EscapeBody(s) + "\""
  }

  /** No control character reaches the output: each is written as an escape. */
  lemma QuotePrintable(s: string)
    ensures forall i :: 0 <= i < |Quote(s)| ==> Quote(s)[i] as int >= 0x20
  {
    var b := EscapeBody(s);
    assert Quote(s) == "\"" + b + "\"";
  }

  /** Reads one escape sequence; s starts just after the backslash. */
  function DecodeEscape(s: string): (r: Option<(char, string)>)
    ensures r.Some? ==> |r.value.1| < |s|
  {
    if |s| == 0 then None
    else if s[0] == '"' then Some(('"', s[1..]))
    else if s[0] == '\\' then Some(('\\', s[1..]))
    else if s[0] == '/' then Some(('/', s[1..]))
    else if s[0] == 'b' then Some(('\U{0008}', s[1..]))
    else if s[0] == 'f' then Some(('\U{000C}', s[1..]))
    else if s[0] == 'n' then Some(('\n', s[1..]))
    else if s[0] == 'r' then Some(('\r', s[1..]))
    else if s[0] == 't' then Some(('\t', s[1..]))
    else if s[0] == 'u' && |s| >= 5 then
      match (HexValue(s[1]), HexValue(s[2]), HexValue(s[3]), HexValue(s[4]))
      case (Some(a), Some(b), Some(c), Some(d)) =>
        var n := ((a * 16 + b) * 16 + c) * 16 + d;
        if 0xD800 <= n < 0xE000 then None else Some((n as char, s[5..]))
      case _ => None
    else None
  }

  /** Reads the characters of a string literal up to its closing quote; returns them and what follows. */
  function DecodeBody(s: string): (r: Option<(string, string)>)
    ensures r.Some? ==> |r.value.1| < |s|
    decreases |s|
  {
    if |s| == 0 then None
    else if s[0] == '"' then Some(([], s[1..]))
    else if s[0] == '\\' then
      match DecodeEscape(s[1..])
      case None => None
      case Some((c, rest)) =>
        match DecodeBody(rest)
        case None => None
        case Some((t, after)) => Some(([c] + t, after))
    else if (s[0] as int) < 0x20 then None
    else
      match DecodeBody(s[1..])
      case None => None
      case Some((t, after)) => Some(([s[0]] + t, after))
  }

  /** Reads a JSON string literal at the front of s; returns its value and the text after it. */
  function DecodeString(s: string): (r: Option<(string, string)>)
    ensures r.Some? ==> |r.value.1| < |s|
  {
    if |s| > 0 && s[0] == '"' then DecodeBody(s[1..]) else None
  }

  lemma DecodeEscapedChar(c: char, t: string, x: string, after: string)
    requires DecodeBody(t) == Some((x, after))
    ensures DecodeBody(EscapeChar(c) + t) == Some(([c] + x, after))
  {
    var e := EscapeChar(c);
    if c as int < 0x20 && c != '\U{0008}' && c != '\t' && c != '\n' && c != '\U{000C}' && c != '\r' {
      var n := c as int;
      var s := e + t;
      assert s[1..] == "u00" + [HexDigit(n / 16), HexDigit(n % 16)] + t;
      HexValueOfDigit(n / 16);
      HexValueOfDigit(n % 16);
      assert DecodeEscape(s[1..]) == Some((c, t));
    } else if c == '"' || c == '\\' || c as int < 0x20 {
      assert (e + t)[1..] == e[1..] + t;
    } else {
      assert (e + t)[1..] == t;
    }
  }

  lemma {:induction false} DecodeEscapeBody(x: string, rest: string)
    ensures DecodeBody(EscapeBody(x) + "\"" + rest) == Some((x, rest))
  {
    if x == [] {
      assert EscapeBody(x) + "\"" + rest == "\"" + rest;
    } else {
      DecodeEscapeBody(x[1..], rest);
      assert EscapeBody(x) + "\"" + rest == EscapeChar(x[0]) + (EscapeBody(x[1..]) + "\"" + rest);
      DecodeEscapedChar(x[0], EscapeBody(x[1..]) + "\"" + rest, x[1..], rest);
      assert [x[0]] + x[1..] == x;
    }
  }

  /** Reading back what `Quote` wrote gives the original string and leaves what follows untouched. */
  lemma DecodeQuote(x: string, rest: string)
    ensures DecodeString(Quote(x) + rest) == Some((x, rest))
  {
    assert Quote(x) + rest == "\"" + (EscapeBody(x) + "\"" + rest);
    DecodeEscapeBody(x, rest);
  }
}
