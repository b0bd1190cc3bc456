/**
 * `json.dumps(value)` with its defaults: items separated by ", ", keys by
 * ": ", and `ensure_ascii`, so every character outside printable ASCII is
 * written as a `\uXXXX` escape (a surrogate pair above U+FFFF).
 */
module JsonEncode {
  import opened JsonValue

  /** The lower-case hexadecimal digit of `d`. */
  function HexDigit(d: nat): (c: char)
    requires d < 16
  {
    if d < 10 then ('0' as int + d) as char else ('a' as int + d - 10) as char
  }

  /** The four lower-case hexadecimal digits of `n`, most significant first. */
  function Hex4(n: nat): (h: string)
    requires n < 0x1_0000
  {
    [HexDigit(n / 0x1000), HexDigit(n / 0x100 % 16), HexDigit(n / 16 % 16), HexDigit(n % 16)]
  }

  /** The escape the encoder writes for one character of a string. */
  function EscapeChar(c: char): string
  {
    if c == '"' then ['\\', '"']
    else if c == '\\' then ['\\', '\\']
    else if c == '\n' then ['\\', 'n']
    else if c == '\r' then ['\\', 'r']
    else if c == '\t' then ['\\', 't']
    else if c as int == 8 then ['\\', 'b']
    else if c as int == 12 then ['\\', 'f']
    else if ' ' <= c <= '~' then [c]
    else if c as int < 0x1_0000 then ['\\', 'u'] + Hex4(c as int)
    else
      var v := c as int - 0x1_0000;
      ['\\', 'u'] + Hex4(0xD800 + v / 0x400) + ['\\', 'u'] + Hex4(0xDC00 + v % 0x400)
  }

  function Escape(s: string): string
  {
    if s == [] then [] else EscapeChar(s[0]) + Escape(s[1..])
  }

  /** A string literal: the escaped characters between double quotes. */
  function Quote(s: string): string
  {
    ['"'] + Escape(s) + ['"']
  }

  function NatText(n: nat): string
  {
    if n < 10 then [HexDigit(n)] else NatText(n / 10) + [HexDigit(n % 10)]
  }

  /** `repr` of a Python int. */
  function IntText(i: int): string
  {
    if i < 0 then ['-'] + NatText(-i) else NatText(i)
  }

  function Serialize(j: Json): string
    decreases j
  {
    match j
    case Null => "null"
    case Bool(b) => if b then "true" else "false"
    case Int(i) => IntText(i)
    case Str(s) => Quote(s)
    case Arr(items) => "[" + SerializeItems(items) + "]"
    case Obj(ms) => "{" + SerializeMembers(ms) + "}"
  }

  function SerializeItems(items: seq<Json>): string
    decreases items
  {
    if items == [] then ""
    else if |items| == 1 then Serialize(items[0])
    else Serialize(items[0]) + ", " + SerializeItems(items[1..])
  }

  function SerializeMember(m: (string, Json)): string
    decreases m
  {
    Quote(m.0) + ": " + Serialize(m.1)
  }

  function SerializeMembers(ms: seq<(string, Json)>): string
    decreases ms
  {
    if ms == [] then ""
    else if |ms| == 1 then SerializeMember(ms[0])
    else SerializeMember(ms[0]) + ", " + SerializeMembers(ms[1..])
  }
}
