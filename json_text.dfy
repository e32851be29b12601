/** `JSON.stringify` applied to a string, as the legacy routes use it to put
    an error message into an event, and the matching decoder. */
module JsonText {

  import opened JsText

  /** The escape sequence ECMAScript's QuoteJSONString writes for `c`, or
      `c` itself when it needs none. */
  function EscapeChar(c: char): string
  {
    if c == '\U{0008}' then "\\b"
    else if c == '\t' then "\\t"
    else if c == '\n' then "\\n"
    else if c == '\U{000C}' then "\\f"
    else if c == '\r' then "\\r"
    else if c == '"' then "\\\""
    else if c == '\\' then "\\\\"
    else if c < ' ' then "\\u00" + [HexDigit(c as int / 16), HexDigit(c as int % 16)]
    else [c]
  }

  function HexDigit(d: nat): (c: char)
    requires d < 16
  {
    "0123456789abcdef"[d]
  }

  /** The characters written without an escape. */
  predicate Plain(c: char)
  {
    c >= ' ' && c != '"' && c != '\\'
  }

  function Escape(s: string): string
  {
    if s == [] then [] else EscapeChar(s[0]) + Escape(s[1..])
  }

  /** `JSON.stringify(s)` for a string `s`. */
  function Quote(s: string): string
  {
    "\"" + Escape(s) + "\""
  }

  /** `JSON.stringify({ error: message })`. */
  function ErrorObject(message: string): string
  {
    "{\"error\":" + Quote(message) + "}"
  }

  /* Decoding, to state what the encoding keeps. */

  function HexValue(c: char): Option<nat>
  {
    if '0' <= c <= '9' then Some(c as int - '0' as int)
    else if 'a' <= c <= 'f' then Some(c as int - 'a' as int + 10)
    else if 'A' <= c <= 'F' then Some(c as int - 'A' as int + 10)
    else None
  }

  /** Reads the body of a JSON string literal (without its quotes), undoing
      the escapes; `None` for a malformed body. Only `\u` escapes below
      U+0100 are read, which covers every one `Escape` writes. */
  function Unescape(t: string): Option<string>
    decreases |t|
  {
    if t == [] then Some([])
    else if t[0] == '"' || t[0] < ' ' then None
    else if t[0] != '\\' then
      match Unescape(t[1..]) case None => None case Some(r) => Some([t[0]] + r)
    else if |t| < 2 then None
    else
      var d := t[1];
      if d == 'u' then
        if |t| < 6 || t[2] != '0' || t[3] != '0' then None
        else match (HexValue(t[4]), HexValue(t[5]))
          case (Some(hi), Some(lo)) =>
            (match Unescape(t[6..]) case None => None case Some(r) => Some([(hi * 16 + lo) as char] + r))
          case _ => None
      else
        var c := if d == 'b' then Some('\U{0008}') else if d == 't' then Some('\t') else if d == 'n' then Some('\n')
          else if d == 'f' then Some('\U{000C}') else if d == 'r' then Some('\r') else if d == '"' then Some('"')
          else if d == '\\' then Some('\\') else if d == '/' then Some('/') else None;
        match c
        case None => None
        case Some(x) => (match Unescape(t[2..]) case None => None case Some(r) => Some([x] + r))
  }

  /** Decoding one escaped character in front of any text gives the character back. */
  lemma UnescapeChar(c: char, rest: string)
    ensures Unescape(EscapeChar(c) + rest) ==
      (match Unescape(rest) case None => None case Some(r) => Some([c] + r))
  {
    var e := EscapeChar(c);
    var t := e + rest;
    if c < ' ' && c != '\U{0008}' && c != '\t' && c != '\n' && c != '\U{000C}' && c != '\r' {
      assert t[2..] == "00" + [HexDigit(c as int / 16), HexDigit(c as int % 16)] + rest;
      assert HexValue(t[4]) == Some(c as int / 16);
      assert HexValue(t[5]) == Some(c as int % 16);
      assert t[6..] == rest;
    } else if |e| == 2 {
      assert t[2..] == rest;
    } else {
      assert t[1..] == rest;
    }
  }

  /** Round trip: decoding what `JSON.stringify` wrote gives the string back. */
  lemma {:induction false} UnescapeEscape(s: string)
    ensures Unescape(Escape(s)) == Some(s)
  {
    if s != [] {
      assert Escape(s) == EscapeChar(s[0]) + Escape(s[1..]);
      UnescapeEscape(s[1..]);
      UnescapeChar(s[0], Escape(s[1..]));
      assert [s[0]] + s[1..] == s;
    }
  }

  /** An escaped string never holds a line break, so the error object always
      fits on one line of an event stream. */
  lemma {:induction false} EscapeOneLine(s: string)
    ensures '\n' !in Escape(s) && '\r' !in Escape(s)
  {
    if s != [] {
      EscapeOneLine(s[1..]);
      EscapeCharOneLine(s[0]);
      assert Escape(s) == EscapeChar(s[0]) + Escape(s[1..]);
    }
  }

  lemma EscapeCharOneLine(c: char)
    ensures '\n' !in EscapeChar(c) && '\r' !in EscapeChar(c)
  {
    if c < ' ' && c != '\U{0008}' && c != '\t' && c != '\n' && c != '\U{000C}' && c != '\r' {
      assert EscapeChar(c) == ['\\', 'u', '0', '0', HexDigit(c as int / 16), HexDigit(c as int % 16)];
    }
  }

  /** A string with nothing to escape is written as it is. */
  lemma {:induction false} EscapePlain(s: string)
    requires forall i :: 0 <= i < |s| ==> Plain(s[i])
    ensures Escape(s) == s
  {
    if s != [] {
      EscapePlain(s[1..]);
    }
  }

  lemma ErrorObjectOneLine(message: string)
    ensures '\n' !in ErrorObject(message)
    ensures !IsBlank(ErrorObject(message))
  {
    EscapeOneLine(message);
    assert ErrorObject(message)[0] == '{';
  }
}
