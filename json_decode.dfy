/**
 * `json.loads(text)` as CPython's C scanner does it: whitespace is space, tab,
 * newline and carriage return; control characters inside strings are
 * refused; a duplicate key keeps its first position and its last value.
 * Outside the model: numbers with a fraction or an exponent, NaN and
 * Infinity (Python yields a float; here the text does not parse), and
 * `\u` escapes that leave a lone surrogate (Python keeps it; here the text
 * does not parse).
 */
module JsonDecode {
  import opened Wrappers
  import opened JsonValue

  predicate IsWs(c: char)
  {
    c == ' ' || c == '\t' || c == '\n' || c == '\r'
  }

  /** The text after the leading JSON whitespace. */
  function SkipWs(s: string): (r: string)
    ensures |r| <= |s| && r == s[|s| - |r|..]
    ensures r == [] || !IsWs(r[0])
  {
    if s != [] && IsWs(s[0]) then SkipWs(s[1..]) else s
  }

  predicate IsDigit(c: char)
  {
    '0' <= c <= '9'
  }

  function HexValue(c: char): Option<nat>
  {
    if '0' <= c <= '9' then Some(c as int - '0' as int)
    else if 'a' <= c <= 'f' then Some(c as int - 'a' as int + 10)
    else if 'A' <= c <= 'F' then Some(c as int - 'A' as int + 10)
    else None
  }

  /** The value of exactly four hexadecimal digits. */
  function Hex4Value(h: string): (r: Option<nat>)
    requires |h| == 4
    ensures r.Some? ==> r.value < 0x1_0000
  {
    match (HexValue(h[0]), HexValue(h[1]), HexValue(h[2]), HexValue(h[3]))
    case (Some(a), Some(b), Some(c), Some(d)) =>
      assert a < 16 && b < 16 && c < 16 && d < 16;
      Some(((a * 16 + b) * 16 + c) * 16 + d)
    case _ => None
  }

  /**
   * The character a backslash escape at the start of `s` stands for, and how
   * many characters of `s` the escape takes.
   */
  function Unescape(s: string): (r: Option<(char, nat)>)
    requires s != [] && s[0] == '\\'
    ensures r.Some? ==> 2 <= r.value.1 <= |s|
  {
    if |s| < 2 then None
    else if s[1] == '"' then Some(('"', 2))
    else if s[1] == '\\' then Some(('\\', 2))
    else if s[1] == '/' then Some(('/', 2))
    else if s[1] == 'b' then Some((8 as char, 2))
    else if s[1] == 'f' then Some((12 as char, 2))
    else if s[1] == 'n' then Some(('\n', 2))
    else if s[1] == 'r' then Some(('\r', 2))
    else if s[1] == 't' then Some(('\t', 2))
    else if s[1] != 'u' || |s| < 6 then None
    else match Hex4Value(s[2..6])
      case None => None
      case Some(hi) =>
        if 0xD800 <= hi < 0xDC00 then
          if |s| < 12 || s[6] != '\\' || s[7] != 'u' then None
          else match Hex4Value(s[8..12])
            case Some(lo) =>
              if 0xDC00 <= lo < 0xE000 then
                Some(((0x1_0000 + (hi - 0xD800) * 0x400 + (lo - 0xDC00)) as char, 12))
              else None
            case None => None
        else if 0xDC00 <= hi < 0xE000 then None
        else Some((hi as char, 6))
  }

  function Cons(c: char, r: Option<(string, string)>): Option<(string, string)>
  {
    match r
    case None => None
    case Some((t, rest)) => Some(([c] + t, rest))
  }

  /** The decoded body of a string literal whose opening quote is already read, and the text after its closing quote. */
  function ParseStringBody(s: string): (r: Option<(string, string)>)
    decreases |s|
    ensures r.Some? ==> |r.value.1| < |s|
  {
    if s == [] then None
    else if s[0] == '"' then Some(([], s[1..]))
    else if s[0] == '\\' then
      match Unescape(s)
      case None => None
      case Some((c, n)) => Cons(c, ParseStringBody(s[n..]))
    else if s[0] < ' ' then None
    else Cons(s[0], ParseStringBody(s[1..]))
  }

  /** The length of the run of decimal digits that starts `s`. */
  function DigitRun(s: string): (n: nat)
    ensures n <= |s|
    ensures forall k | 0 <= k < n :: IsDigit(s[k])
    ensures n < |s| ==> !IsDigit(s[n])
  {
    if s == [] || !IsDigit(s[0]) then 0 else 1 + DigitRun(s[1..])
  }

  function DigitsValue(ds: string): nat
    requires forall k | 0 <= k < |ds| :: IsDigit(ds[k])
  {
    if ds == [] then 0
    else
      assert IsDigit(ds[|ds| - 1]);
      DigitsValue(ds[..|ds| - 1]) * 10 + (ds[|ds| - 1] as int - '0' as int)
  }

  /** An unsigned integer `0|[1-9][0-9]*` at the start of `t`: a lone `0`, or the whole run of digits. */
  function ParseNat(t: string): (r: Option<(nat, string)>)
    ensures r.Some? ==> |r.value.1| < |t|
  {
    if t == [] || !IsDigit(t[0]) then None
    else
      var n := if t[0] == '0' then 1 else DigitRun(t);
      Some((DigitsValue(t[..n]), t[n..]))
  }

  /** An integer `-?(0|[1-9][0-9]*)` at the start of `s`. */
  function ParseInt(s: string): (r: Option<(Json, string)>)
    ensures r.Some? ==> |r.value.1| < |s|
  {
    if s != [] && s[0] == '-' then
      match ParseNat(s[1..])
      case None => None
      case Some((v, rest)) => Some((Int(0 - v), rest))
    else
      match ParseNat(s)
      case None => None
      case Some((v, rest)) => Some((Int(v), rest))
  }

  predicate HasPrefix(s: string, p: string)
  {
    |p| <= |s| && s[..|p|] == p
  }

  /** The value at the start of `s` and the text after it. */
  function ParseValue(s: string): (r: Option<(Json, string)>)
    decreases |s|, 0
    ensures r.Some? ==> |r.value.1| < |s| && WellFormed(r.value.0)
  {
    if s == [] then None
    else if s[0] == '"' then
      match ParseStringBody(s[1..])
      case None => None
      case Some((t, rest)) => Some((Str(t), rest))
    else if s[0] == '[' then ParseArray(SkipWs(s[1..]))
    else if s[0] == '{' then ParseObject(SkipWs(s[1..]))
    else if HasPrefix(s, "null") then Some((Null, s[4..]))
    else if HasPrefix(s, "true") then Some((Bool(true), s[4..]))
    else if HasPrefix(s, "false") then Some((Bool(false), s[5..]))
    else if s[0] == '-' || IsDigit(s[0]) then ParseInt(s)
    else None
  }

  /** An array whose `[` and the whitespace after it are already read. */
  function ParseArray(s: string): (r: Option<(Json, string)>)
    decreases |s|, 2
    ensures r.Some? ==> |r.value.1| < |s| && WellFormed(r.value.0)
  {
    if s != [] && s[0] == ']' then Some((Arr([]), s[1..])) else ParseItems(s, [])
  }

  /** The elements of an array from the next one on, `acc` holding those read so far. */
  function ParseItems(s: string, acc: seq<Json>): (r: Option<(Json, string)>)
    requires forall k | 0 <= k < |acc| :: WellFormed(acc[k])
    decreases |s|, 1
    ensures r.Some? ==> |r.value.1| < |s| && WellFormed(r.value.0)
  {
    match ParseValue(s)
    case None => None
    case Some((v, rest)) => ContinueItems(rest, acc + [v])
  }

  /** After an element: `,` and the next element, or `]` and the end of the array. */
  function ContinueItems(s: string, acc: seq<Json>): (r: Option<(Json, string)>)
    requires forall k | 0 <= k < |acc| :: WellFormed(acc[k])
    decreases |s|, 2
    ensures r.Some? ==> |r.value.1| < |s| && WellFormed(r.value.0)
  {
    var t := SkipWs(s);
    if t != [] && t[0] == ',' then ParseItems(SkipWs(t[1..]), acc)
    else if t != [] && t[0] == ']' then Some((Arr(acc), t[1..]))
    else None
  }

  /** An object whose `{` and the whitespace after it are already read. */
  function ParseObject(s: string): (r: Option<(Json, string)>)
    decreases |s|, 2
    ensures r.Some? ==> |r.value.1| < |s| && WellFormed(r.value.0)
  {
    if s != [] && s[0] == '}' then Some((Obj([]), s[1..])) else ParseMembers(s, [])
  }

  /** One member `"key": value` and the text after its value. */
  function ParseMember(s: string): (r: Option<(string, Json, string)>)
    decreases |s|, 0
    ensures r.Some? ==> |r.value.2| < |s| && WellFormed(r.value.1)
  {
    if s == [] || s[0] != '"' then None
    else match ParseStringBody(s[1..])
      case None => None
      case Some((key, afterKey)) =>
        var t := SkipWs(afterKey);
        if t == [] || t[0] != ':' then None
        else match ParseValue(SkipWs(t[1..]))
          case None => None
          case Some((v, rest)) => Some((key, v, rest))
  }

  /** The members of an object from the next one on, `acc` holding the dict built so far. */
  function ParseMembers(s: string, acc: seq<(string, Json)>): (r: Option<(Json, string)>)
    requires DistinctKeys(acc) && forall k | 0 <= k < |acc| :: WellFormed(acc[k].1)
    decreases |s|, 1
    ensures r.Some? ==> |r.value.1| < |s| && WellFormed(r.value.0)
  {
    match ParseMember(s)
    case None => None
    case Some((key, v, rest)) =>
      var acc' := Put(acc, key, v);
      PutDistinct(acc, key, v);
      assert forall k | 0 <= k < |acc'| :: WellFormed(acc'[k].1) by {
        forall k | 0 <= k < |acc'| ensures WellFormed(acc'[k].1) {
          PutValues(acc, key, v, k);
        }
      }
      ContinueMembers(rest, acc')
  }

  /** After a member: `,` and the next member, or `}` and the end of the object. */
  function ContinueMembers(s: string, acc: seq<(string, Json)>): (r: Option<(Json, string)>)
    requires DistinctKeys(acc) && forall k | 0 <= k < |acc| :: WellFormed(acc[k].1)
    decreases |s|, 2
    ensures r.Some? ==> |r.value.1| < |s| && WellFormed(r.value.0)
  {
    var u := SkipWs(s);
    if u != [] && u[0] == ',' then ParseMembers(SkipWs(u[1..]), acc)
    else if u != [] && u[0] == '}' then Some((Obj(acc), u[1..]))
    else None
  }

  /** Every value of `Put(ms, key, v)` is `v` or a value of `ms`. */
  lemma {:induction false} PutValues(ms: seq<(string, Json)>, key: string, v: Json, k: nat)
    requires k < |Put(ms, key, v)|
    ensures Put(ms, key, v)[k].1 == v || exists i | 0 <= i < |ms| :: Put(ms, key, v)[k].1 == ms[i].1
  {
    if ms != [] && ms[0].0 != key && k > 0 {
      PutValues(ms[1..], key, v, k - 1);
      var i :| Put(ms[1..], key, v)[k - 1].1 == v || (0 <= i < |ms[1..]| && Put(ms[1..], key, v)[k - 1].1 == ms[1..][i].1);
    }
  }

  /** `json.loads(text)`: one value, optionally surrounded by whitespace, and nothing else. */
  function Parse(text: string): (r: Option<Json>)
    ensures r.Some? ==> WellFormed(r.value)
  {
    match ParseValue(SkipWs(text))
    case None => None
    case Some((v, rest)) => if SkipWs(rest) == [] then Some(v) else None
  }
}
