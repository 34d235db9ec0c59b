/** The string literals `JSON.stringify` writes: the text between double
    quotes, with the quote, the backslash and the control characters escaped. */
module Json {
  import opened Wrappers

  /** The lower-case hexadecimal digit of `d`. */
  function HexDigit(d: nat): (c: char)
    requires d < 16
    ensures ('0' <= c <= '9') || ('a' <= c <= 'f')
  {
    if d < 10 then ('0' as int + d) as char else ('a' as int + d - 10) as char
  }

  /** The value of a hexadecimal digit of either case. */
  function HexValue(c: char): Option<nat> {
    if '0' <= c <= '9' then Some(c as int - '0' as int)
    else if 'a' <= c <= 'f' then Some(c as int - 'a' as int + 10)
    else if 'A' <= c <= 'F' then Some(c as int - 'A' as int + 10)
    else None
  }

  /** How one character is written inside a JSON string: the two-character
      escapes for `"`, `\`, backspace, form feed, line feed, carriage return
      and tab, `\u00xx` for the other characters below U+0020, and the
      character itself otherwise. */
  function EscapeChar(c: char): (r: string)
    ensures |r| >= 1
    ensures r[0] == '\\' <==> c == '"' || c == '\\' || c < ' '
    ensures r[0] != '\\' ==> r == [c]
  {
    if c == '"' then "\\\""
    else if c == '\\' then "\\\\"
    else if c == '\U{0008}' then "\\b"
    else if c == '\U{000C}' then "\\f"
    else if c == '\n' then "\\n"
    else if c == '\r' then "\\r"
    else if c == '\t' then "\\t"
    else if c < ' ' then "\\u00" + [HexDigit(c as int / 16), HexDigit(c as int % 16)]
    else [c]
  }

  /** The escaped body of a JSON string literal. */
  function Escape(s: string): string {
    if s == [] then [] else EscapeChar(s[0]) + Escape(s[1..])
  }

  /** `JSON.stringify` of a string: its escaped text between double quotes. */
  function Quote(s: string): (r: string)
    ensures |r| >= 2 && r[0] == '"' && r[|r| - 1] == '"'
  {
    "\"" + Escape(s) + "\""
  }

  /** The character a two-character escape `\x` stands for. */
  function SimpleUnescape(x: char): Option<char> {
    if x == '"' then Some('"')
    else if x == '\\' then Some('\\')
    else if x == '/' then Some('/')
    else if x == 'b' then Some('\U{0008}')
    else if x == 'f' then Some('\U{000C}')
    else if x == 'n' then Some('\n')
    else if x == 'r' then Some('\r')
    else if x == 't' then Some('\t')
    else None
  }

  /** The character of a `\u00xy` escape. */
  function ByteEscape(t: string): Option<char>
    requires |t| >= 6
  {
    if t[2] == '0' && t[3] == '0' && HexValue(t[4]).Some? && HexValue(t[5]).Some? then
      Some((HexValue(t[4]).value * 16 + HexValue(t[5]).value) as char)
    else None
  }

  /** A reader of the escaped body of a JSON string (escapes of code points
      up to U+00FF): the text it stands for, or `None` when it is not a
      well-formed body. */
  function Unescape(t: string): (r: Option<string>)
    decreases |t|
  {
    if t == [] then Some([])
    else if t[0] == '"' || t[0] < ' ' then None
    else if t[0] != '\\' then
      match Unescape(t[1..])
      case Some(rest) => Some([t[0]] + rest)
      case None => None
    else if |t| >= 2 && SimpleUnescape(t[1]).Some? then
      match Unescape(t[2..])
      case Some(rest) => Some([SimpleUnescape(t[1]).value] + rest)
      case None => None
    else if |t| >= 6 && t[1] == 'u' && ByteEscape(t).Some? then
      match Unescape(t[6..])
      case Some(rest) => Some([ByteEscape(t).value] + rest)
      case None => None
    else None
  }

  /** A hexadecimal digit reads back as its value. */
  lemma HexRoundTrip(d: nat)
    requires d < 16
    ensures HexValue(HexDigit(d)) == Some(d)
  {
  }

  /** Reading an escaped character followed by more text reads the character
      and then the text. */
  lemma UnescapeChar(c: char, t: string)
    ensures Unescape(EscapeChar(c) + t) ==
      match Unescape(t)
      case Some(rest) => Some([c] + rest)
      case None => None
  {
    var e := EscapeChar(c);
    var u := e + t;
    if e[0] != '\\' {
      assert u[1..] == t;
    } else if |e| == 2 {
      assert u[2..] == t;
    } else {
      var hi, lo := c as int / 16, c as int % 16;
      HexRoundTrip(hi);
      HexRoundTrip(lo);
      assert u[6..] == t;
      assert u[..6] == e;
      assert ByteEscape(u) == Some(c);
    }
  }

  /** Round trip: the escaped body of a string reads back as the string. */
  lemma {:induction false} EscapeRoundTrip(s: string)
    ensures Unescape(Escape(s)) == Some(s)
  {
    if s != [] {
      EscapeRoundTrip(s[1..]);
      UnescapeChar(s[0], Escape(s[1..]));
      assert [s[0]] + s[1..] == s;
    }
  }

  /** Text with nothing to escape is written as it is. */
  lemma {:induction false} EscapePlain(s: string)
    requires forall i :: 0 <= i < |s| ==> s[i] != '"' && s[i] != '\\' && s[i] >= ' '
    ensures Escape(s) == s
  {
    if s != [] {
      EscapePlain(s[1..]);
      assert [s[0]] + s[1..] == s;
    }
  }
}
