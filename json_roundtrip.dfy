/**
 * Decoding what the encoder wrote gives back the value:
 * `json.loads(json.dumps(v)) == v` for every value whose dicts have distinct keys.
 */
module JsonRoundTrip {
  import opened Wrappers
  import opened JsonValue
  import opened JsonEncode
  import opened JsonDecode

  lemma HexDigitValue(d: nat)
    requires d < 16
    ensures HexValue(HexDigit(d)) == Some(d)
  {
  }

  lemma {:induction false} Hex4RoundTrip(n: nat)
    requires n < 0x1_0000
    ensures Hex4Value(Hex4(n)) == Some(n)
  {
    var h := Hex4(n);
    var a, b, c, d := n / 0x1000, n / 0x100 % 16, n / 16 % 16, n % 16;
    HexDigitValue(a);
    HexDigitValue(b);
    HexDigitValue(c);
    HexDigitValue(d);
    var q1 := n / 16;
    var q2 := q1 / 16;
    assert n == q1 * 16 + d;
    assert q1 == q2 * 16 + c;
    assert q2 == n / 0x100;
    assert q2 == a * 16 + b;
    assert ((a * 16 + b) * 16 + c) * 16 + d == n;
  }

  lemma {:induction false} ShortEscapeRoundTrip(c: char, s: string)
    requires |EscapeChar(c)| == 2
    ensures ParseStringBody(EscapeChar(c) + s) == Cons(c, ParseStringBody(s))
  {
    var text := EscapeChar(c) + s;
    assert text[2..] == s;
    assert text[0] == '\\' && |text| >= 2;
  }

  lemma {:induction false} BmpEscapeRoundTrip(c: char, s: string)
    requires |EscapeChar(c)| == 6
    ensures ParseStringBody(EscapeChar(c) + s) == Cons(c, ParseStringBody(s))
  {
    var e := EscapeChar(c);
    var text := e + s;
    assert c as int < 0x1_0000;
    assert e == ['\\', 'u'] + Hex4(c as int);
    assert text[2..6] == Hex4(c as int);
    Hex4RoundTrip(c as int);
    assert Unescape(text) == Some((c, 6));
    assert text[6..] == s;
  }

  lemma PairEscapeRoundTrip(c: char, s: string)
    requires |EscapeChar(c)| == 12
    ensures ParseStringBody(EscapeChar(c) + s) == Cons(c, ParseStringBody(s))
  {
    var v := c as int - 0x1_0000;
    var hi, lo := 0xD800 + v / 0x400, 0xDC00 + v % 0x400;
    assert EscapeChar(c) == ['\\', 'u'] + Hex4(hi) + ['\\', 'u'] + Hex4(lo);
    SurrogatesRecombine(c as int);
    PairDecodes(hi, lo, s);
  }

  /** The two escapes of a surrogate pair decode to the one character they encode, then what follows. */
  lemma PairDecodes(hi: int, lo: int, s: string)
    requires 0xD800 <= hi < 0xDC00 && 0xDC00 <= lo < 0xE000
    ensures var text := ['\\', 'u'] + Hex4(hi) + ['\\', 'u'] + Hex4(lo) + s;
      ParseStringBody(text) == Cons((0x1_0000 + (hi - 0xD800) * 0x400 + (lo - 0xDC00)) as char, ParseStringBody(s))
  {
    var text := ['\\', 'u'] + Hex4(hi) + ['\\', 'u'] + Hex4(lo) + s;
    Hex4RoundTrip(hi);
    Hex4RoundTrip(lo);
    PairUnescape(text, hi, lo);
    UnescapeStep(text);
    assert text[12..] == s;
  }

  /** An escape is decoded on its own, then what follows it. */
  lemma UnescapeStep(text: string)
    requires text != [] && text[0] == '\\' && Unescape(text).Some?
    ensures ParseStringBody(text) == Cons(Unescape(text).value.0, ParseStringBody(text[Unescape(text).value.1..]))
  {
  }

  /** A character above the basic plane splits into a high and a low surrogate that recombine to it. */
  lemma SurrogatesRecombine(n: int)
    requires 0x1_0000 <= n < 0x11_0000
    ensures var v := n - 0x1_0000;
      var hi, lo := 0xD800 + v / 0x400, 0xDC00 + v % 0x400;
      0xD800 <= hi < 0xDC00 && 0xDC00 <= lo < 0xE000
      && 0x1_0000 + (hi - 0xD800) * 0x400 + (lo - 0xDC00) == n
  {
  }

  /** Two `\\u` escapes holding a surrogate pair decode to one character, taking twelve characters. */
  lemma PairUnescape(text: string, hi: int, lo: int)
    requires 0xD800 <= hi < 0xDC00 && 0xDC00 <= lo < 0xE000
    requires 12 <= |text| && text[..12] == ['\\', 'u'] + Hex4(hi) + ['\\', 'u'] + Hex4(lo)
    requires Hex4Value(Hex4(hi)) == Some(hi) && Hex4Value(Hex4(lo)) == Some(lo)
    ensures Unescape(text) == Some(((0x1_0000 + (hi - 0xD800) * 0x400 + (lo - 0xDC00)) as char, 12))
  {
    var e := text[..12];
    assert text[0] == e[0] && text[1] == e[1] && text[6] == e[6] && text[7] == e[7];
    assert text[2..6] == e[2..6] == Hex4(hi);
    assert text[8..12] == e[8..12] == Hex4(lo);
  }

  /** Decoding one escaped character gives the character back, whatever follows it. */
  lemma {:induction false} EscapeCharRoundTrip(c: char, s: string)
    ensures ParseStringBody(EscapeChar(c) + s) == Cons(c, ParseStringBody(s))
  {
    var e := EscapeChar(c);
    if |e| == 2 {
      ShortEscapeRoundTrip(c, s);
    } else if |e| == 1 {
      assert (e + s)[1..] == s;
    } else if |e| == 6 {
      BmpEscapeRoundTrip(c, s);
    } else {
      PairEscapeRoundTrip(c, s);
    }
  }

  /** A string body written by the encoder decodes to the string, and decoding resumes after the closing quote. */
  lemma {:induction false} EscapeRoundTrip(str: string, rest: string)
    ensures ParseStringBody(Escape(str) + ['"'] + rest) == Some((str, rest))
  {
    if str == [] {
      assert Escape(str) + ['"'] + rest == ['"'] + rest;
      assert (['"'] + rest)[1..] == rest;
    } else {
      EscapeStep(str, rest);
      EscapeRoundTrip(str[1..], rest);
      assert [str[0]] + str[1..] == str;
    }
  }

  /** The first character of a string body is decoded on its own, then the rest. */
  lemma EscapeStep(str: string, rest: string)
    requires str != []
    ensures ParseStringBody(Escape(str) + ['"'] + rest) == Cons(str[0], ParseStringBody(Escape(str[1..]) + ['"'] + rest))
  {
    var t := Escape(str[1..]) + ['"'] + rest;
    assert Escape(str) + ['"'] + rest == EscapeChar(str[0]) + t;
    EscapeCharRoundTrip(str[0], t);
  }

  lemma {:induction false} NatTextDigits(n: nat)
    ensures NatText(n) != []
    ensures forall k | 0 <= k < |NatText(n)| :: IsDigit(NatText(n)[k])
    ensures NatText(n)[0] == '0' ==> NatText(n) == ['0']
    ensures DigitsValue(NatText(n)) == n
  {
    if n >= 10 {
      NatTextDigits(n / 10);
      var ds := NatText(n);
      assert ds[..|ds| - 1] == NatText(n / 10);
      assert ds[0] == NatText(n / 10)[0];
    }
  }

  lemma {:induction false} DigitRunStops(ds: string, rest: string)
    requires forall k | 0 <= k < |ds| :: IsDigit(ds[k])
    requires rest == [] || !IsDigit(rest[0])
    ensures DigitRun(ds + rest) == |ds|
  {
    if ds != [] {
      assert (ds + rest)[1..] == ds[1..] + rest;
      DigitRunStops(ds[1..], rest);
    }
  }

  /** An integer the encoder wrote decodes to itself when no digit follows it. */
  lemma IntRoundTrip(i: int, rest: string)
    requires rest == [] || !IsDigit(rest[0])
    ensures ParseInt(IntText(i) + rest) == Some((Int(i), rest))
  {
    if i < 0 {
      NatTextRoundTrip(-i, rest);
      assert IntText(i) + rest == ['-'] + (NatText(-i) + rest);
      SignedRoundTrip(NatText(-i) + rest, -i, rest);
    } else {
      NatTextRoundTrip(i, rest);
      UnsignedRoundTrip(NatText(i) + rest, i, rest);
    }
  }

  /** The digits the encoder writes for a number, then a non-digit: the number. */
  lemma NatTextRoundTrip(m: nat, rest: string)
    requires rest == [] || !IsDigit(rest[0])
    ensures ParseNat(NatText(m) + rest) == Some((m, rest))
  {
    NatTextDigits(m);
    NatRoundTrip(NatText(m), rest);
  }

  /** A minus sign before an unsigned number: its negation. */
  lemma SignedRoundTrip(t: string, v: nat, rest: string)
    requires ParseNat(t) == Some((v, rest))
    ensures ParseInt(['-'] + t) == Some((Int(0 - v), rest))
  {
    assert (['-'] + t)[1..] == t;
  }

  /** An unsigned number with no sign before it: the number. */
  lemma UnsignedRoundTrip(t: string, v: nat, rest: string)
    requires ParseNat(t) == Some((v, rest))
    ensures ParseInt(t) == Some((Int(v), rest))
  {
    assert IsDigit(t[0]);
  }

  /** Decimal digits without a superfluous leading zero, then a non-digit: the number they spell. */
  lemma NatRoundTrip(ds: string, rest: string)
    requires ds != [] && forall k | 0 <= k < |ds| :: IsDigit(ds[k])
    requires ds[0] == '0' ==> ds == ['0']
    requires rest == [] || !IsDigit(rest[0])
    ensures ParseNat(ds + rest) == Some((DigitsValue(ds), rest))
  {
    var t := ds + rest;
    DigitRunStops(ds, rest);
    assert t[0] == ds[0];
    if ds[0] == '0' {
      assert t[..1] == ds;
    } else {
      assert t[..|ds|] == ds;
    }
    assert t[|ds|..] == rest;
  }

  /** What may follow a value written inside an array, an object, or at the end of the text. */
  predicate Delimited(rest: string)
  {
    rest == [] || rest[0] == ',' || rest[0] == ']' || rest[0] == '}'
  }

  /** The first character of a value's text is none of whitespace, `]`, `}` or `,`. */
  predicate StartsValue(s: string)
  {
    s != [] && !IsWs(s[0]) && s[0] != ']' && s[0] != '}' && s[0] != ','
  }

  lemma SerializeStarts(j: Json)
    ensures StartsValue(Serialize(j))
  {
    if j.Int? {
      NatTextDigits(if j.i < 0 then -j.i else j.i);
    }
  }

  lemma ItemsStart(items: seq<Json>)
    requires items != []
    ensures StartsValue(SerializeItems(items))
  {
    SerializeStarts(items[0]);
  }

  /** The elements of a non-empty array, then its `]` and what follows, start like a value. */
  lemma ItemsThenStart(items: seq<Json>, rest: string)
    requires items != []
    ensures StartsValue(SerializeItems(items) + "]" + rest)
  {
    ItemsStart(items);
    assert (SerializeItems(items) + "]" + rest)[0] == SerializeItems(items)[0];
  }

  lemma EmptyText(e: string, c: char, rest: string)
    requires e == []
    ensures e + [c] + rest == [c] + rest
  {
  }

  /** `acc + xs` is `acc` with the first of `xs` appended, then the rest of `xs`. */
  lemma SplitFirst<T>(acc: seq<T>, xs: seq<T>)
    requires xs != []
    ensures acc + [xs[0]] + xs[1..] == acc + xs
    ensures |xs| == 1 ==> acc + [xs[0]] == acc + xs
  {
    assert [xs[0]] + xs[1..] == xs;
  }

  lemma SkipNothing(s: string)
    requires StartsValue(s)
    ensures SkipWs(s) == s
  {
  }

  lemma NotPrefix(s: string, p: string)
    requires s != [] && p != [] && s[0] != p[0]
    ensures !HasPrefix(s, p)
  {
    if |p| <= |s| {
      assert s[..|p|][0] == s[0];
    }
  }

  lemma LiteralRoundTrip(j: Json, rest: string)
    requires j.Null? || j.Bool?
    ensures ParseValue(Serialize(j) + rest) == Some((j, rest))
  {
    var s := Serialize(j) + rest;
    if j.Null? {
      assert s[..4] == "null" && s[4..] == rest;
    } else if j.b {
      assert s[..4] == "true" && s[4..] == rest;
    } else {
      assert s[0] == 'f';
      NotPrefix(s, "null");
      NotPrefix(s, "true");
      assert s[..5] == "false" && s[5..] == rest;
    }
  }

  lemma IntValueRoundTrip(i: int, rest: string)
    requires rest == [] || !IsDigit(rest[0])
    ensures ParseValue(Serialize(Int(i)) + rest) == Some((Int(i), rest))
  {
    var s := Serialize(Int(i)) + rest;
    NatTextDigits(if i < 0 then -i else i);
    assert s[0] == IntText(i)[0];
    assert s[0] == '-' || IsDigit(s[0]);
    NotPrefix(s, "null");
    NotPrefix(s, "true");
    NotPrefix(s, "false");
    IntRoundTrip(i, rest);
  }

  lemma StrValueRoundTrip(str: string, rest: string)
    ensures ParseValue(Serialize(Str(str)) + rest) == Some((Str(str), rest))
  {
    var s := Serialize(Str(str)) + rest;
    assert s[1..] == Escape(str) + ['"'] + rest;
    EscapeRoundTrip(str, rest);
  }

  /** The first character of `[c] + x` and the text after it. */
  lemma Behead(c: char, x: string)
    ensures ([c] + x)[0] == c && ([c] + x)[1..] == x
  {
  }

  lemma StartsAppend(s: string, x: string)
    requires StartsValue(s)
    ensures StartsValue(s + x) && (s + x)[0] == s[0]
  {
  }

  lemma OpenBracket(s: string, body: string)
    requires s == ['['] + body
    ensures ParseValue(s) == ParseArray(SkipWs(body))
  {
    Behead('[', body);
  }

  lemma OpenBrace(s: string, body: string)
    requires s == ['{'] + body
    ensures ParseValue(s) == ParseObject(SkipWs(body))
  {
    Behead('{', body);
  }

  /** The text the encoder writes for a value decodes to that value, and decoding resumes right after it. */
  lemma {:induction false} ValueRoundTrip(j: Json, rest: string)
    requires WellFormed(j) && Delimited(rest)
    ensures ParseValue(Serialize(j) + rest) == Some((j, rest))
    decreases j, 1
  {
    match j
    case Null => LiteralRoundTrip(j, rest);
    case Bool(_) => LiteralRoundTrip(j, rest);
    case Int(i) => IntValueRoundTrip(i, rest);
    case Str(str) => StrValueRoundTrip(str, rest);
    case Arr(items) => ArrRoundTrip(items, rest);
    case Obj(ms) => ObjRoundTrip(ms, rest);
  }

  lemma ArrText(items: seq<Json>, rest: string)
    ensures Serialize(Arr(items)) + rest == ['['] + (SerializeItems(items) + "]" + rest)
  {
  }

  lemma {:induction false} ArrRoundTrip(items: seq<Json>, rest: string)
    requires WellFormed(Arr(items)) && Delimited(rest)
    ensures ParseValue(Serialize(Arr(items)) + rest) == Some((Arr(items), rest))
    decreases items, 4
  {
    ArrText(items, rest);
    ArrBody(items, rest);
    OpenBracket(Serialize(Arr(items)) + rest, SerializeItems(items) + "]" + rest);
  }

  lemma {:induction false} ArrBody(items: seq<Json>, rest: string)
    requires WellFormed(Arr(items)) && Delimited(rest)
    ensures ParseArray(SkipWs(SerializeItems(items) + "]" + rest)) == Some((Arr(items), rest))
    decreases items, 3
  {
    if items == [] {
      EmptyArrBody(rest);
    } else {
      var body := SerializeItems(items) + "]" + rest;
      ItemsThenStart(items, rest);
      SkipNothing(body);
      ItemsRoundTrip(items, [], rest);
      assert [] + items == items;
    }
  }

  lemma EmptyArrBody(rest: string)
    ensures ParseArray(SkipWs(SerializeItems([]) + "]" + rest)) == Some((Arr([]), rest))
  {
    EmptyText(SerializeItems([]), ']', rest);
    SkipCloser(']', rest);
  }

  lemma ObjText(ms: seq<(string, Json)>, rest: string)
    ensures Serialize(Obj(ms)) + rest == ['{'] + (SerializeMembers(ms) + "}" + rest)
  {
  }

  lemma {:induction false} ObjRoundTrip(ms: seq<(string, Json)>, rest: string)
    requires WellFormed(Obj(ms)) && Delimited(rest)
    ensures ParseValue(Serialize(Obj(ms)) + rest) == Some((Obj(ms), rest))
    decreases ms, 4
  {
    ObjText(ms, rest);
    ObjBody(ms, rest);
    OpenBrace(Serialize(Obj(ms)) + rest, SerializeMembers(ms) + "}" + rest);
  }

  lemma {:induction false} ObjBody(ms: seq<(string, Json)>, rest: string)
    requires WellFormed(Obj(ms)) && Delimited(rest)
    ensures ParseObject(SkipWs(SerializeMembers(ms) + "}" + rest)) == Some((Obj(ms), rest))
    decreases ms, 3
  {
    if ms == [] {
      EmptyObjBody(rest);
    } else {
      var body := SerializeMembers(ms) + "}" + rest;
      MembersStart(ms, rest);
      SkipNothing(body);
      MembersRoundTrip(ms, [], rest);
      assert [] + ms == ms;
    }
  }

  lemma EmptyObjBody(rest: string)
    ensures ParseObject(SkipWs(SerializeMembers([]) + "}" + rest)) == Some((Obj([]), rest))
  {
    EmptyText(SerializeMembers([]), '}', rest);
    SkipCloser('}', rest);
  }

  /** The members of a non-empty object, then its `}` and what follows, start with the quote of the first key. */
  lemma MembersStart(ms: seq<(string, Json)>, rest: string)
    requires ms != []
    ensures StartsValue(SerializeMembers(ms) + "}" + rest)
  {
    var m := SerializeMember(ms[0]);
    assert m[0] == '"';
    if |ms| > 1 {
      assert SerializeMembers(ms)[0] == m[0];
    }
    assert (SerializeMembers(ms) + "}" + rest)[0] == SerializeMembers(ms)[0];
  }

  /** The separator `, ` before a value is read as a comma and skipped whitespace. */
  lemma SkipComma(tail: string)
    requires StartsValue(tail)
    ensures SkipWs(", " + tail) == ", " + tail
    ensures SkipWs((", " + tail)[1..]) == tail
  {
    assert (", " + tail)[1..] == " " + tail;
    assert (" " + tail)[1..] == tail;
  }

  /** The separator `: ` before a value is read as a colon and skipped whitespace. */
  lemma SkipColon(tail: string)
    requires StartsValue(tail)
    ensures SkipWs(": " + tail) == ": " + tail
    ensures SkipWs((": " + tail)[1..]) == tail
  {
    assert (": " + tail)[1..] == " " + tail;
    assert (" " + tail)[1..] == tail;
  }

  /** A closing bracket or brace has no whitespace before it and ends where it says. */
  lemma SkipCloser(c: char, rest: string)
    requires !IsWs(c)
    ensures SkipWs([c] + rest) == [c] + rest
    ensures ([c] + rest)[1..] == rest
  {
  }

  /** One element and what follows it. */
  lemma ItemStep(v: Json, tail: string, acc: seq<Json>)
    requires forall k | 0 <= k < |acc| :: WellFormed(acc[k])
    requires WellFormed(v)
    requires ParseValue(Serialize(v) + tail) == Some((v, tail))
    ensures forall k | 0 <= k < |acc + [v]| :: WellFormed((acc + [v])[k])
    ensures ParseItems(Serialize(v) + tail, acc) == ContinueItems(tail, acc + [v])
  {
  }

  /** `]` ends the array. */
  lemma CloseItems(rest: string, acc: seq<Json>)
    requires forall k | 0 <= k < |acc| :: WellFormed(acc[k])
    ensures ContinueItems("]" + rest, acc) == Some((Arr(acc), rest))
  {
    SkipCloser(']', rest);
  }

  /** `, ` leads to the next element. */
  lemma NextItem(tail: string, acc: seq<Json>)
    requires forall k | 0 <= k < |acc| :: WellFormed(acc[k])
    requires StartsValue(tail)
    ensures ContinueItems(", " + tail, acc) == ParseItems(tail, acc)
  {
    SkipComma(tail);
    var t := ", " + tail;
    assert t[0] == ',';
  }

  lemma Regroup(a: string, b: string, c: string, d: string, e: string)
    ensures a + b + c + d + e == a + (b + (c + d + e))
  {
  }

  lemma LastItemText(items: seq<Json>, rest: string)
    requires |items| == 1
    ensures SerializeItems(items) + "]" + rest == Serialize(items[0]) + ("]" + rest)
  {
    assert SerializeItems(items) == Serialize(items[0]);
  }

  lemma ItemsText(items: seq<Json>, rest: string)
    requires |items| > 1
    ensures SerializeItems(items) + "]" + rest == Serialize(items[0]) + (", " + (SerializeItems(items[1..]) + "]" + rest))
  {
    assert SerializeItems(items) == Serialize(items[0]) + ", " + SerializeItems(items[1..]);
    Regroup(Serialize(items[0]), ", ", SerializeItems(items[1..]), "]", rest);
  }

  lemma {:induction false} ItemsRoundTrip(items: seq<Json>, acc: seq<Json>, rest: string)
    requires items != [] && Delimited(rest)
    requires forall k | 0 <= k < |items| :: WellFormed(items[k])
    requires forall k | 0 <= k < |acc| :: WellFormed(acc[k])
    ensures ParseItems(SerializeItems(items) + "]" + rest, acc) == Some((Arr(acc + items), rest))
    decreases items, 2
  {
    var v := items[0];
    assert v in items;
    assert WellFormed(v);
    var acc' := acc + [v];
    if |items| == 1 {
      LastItemText(items, rest);
      var tail := "]" + rest;
      ValueRoundTrip(v, tail);
      ItemStep(v, tail, acc);
      CloseItems(rest, acc');
      SplitFirst(acc, items);
    } else {
      ItemsText(items, rest);
      var next := SerializeItems(items[1..]) + "]" + rest;
      var tail := ", " + next;
      ValueRoundTrip(v, tail);
      ItemStep(v, tail, acc);
      ItemsThenStart(items[1..], rest);
      NextItem(next, acc');
      ItemsRoundTrip(items[1..], acc', rest);
      SplitFirst(acc, items);
    }
  }

  lemma MemberText(key: string, v: Json, tail: string)
    ensures SerializeMember((key, v)) + tail == ['"'] + (Escape(key) + ['"'] + (": " + (Serialize(v) + tail)))
  {
  }

  /** One member `"key": value` written by the encoder parses back, up to the text after the value. */
  lemma MemberRoundTrip(key: string, v: Json, tail: string)
    requires ParseValue(Serialize(v) + tail) == Some((v, tail))
    requires StartsValue(Serialize(v) + tail)
    ensures ParseMember(SerializeMember((key, v)) + tail) == Some((key, v, tail))
  {
    var after := ": " + (Serialize(v) + tail);
    MemberText(key, v, tail);
    Behead('"', Escape(key) + ['"'] + after);
    EscapeRoundTrip(key, after);
    SkipColon(Serialize(v) + tail);
  }

  /** One member and what follows it, `key` not yet among the members read. */
  lemma MemberStep(text: string, key: string, v: Json, tail: string, acc: seq<(string, Json)>)
    requires DistinctKeys(acc) && forall k | 0 <= k < |acc| :: WellFormed(acc[k].1)
    requires forall k | 0 <= k < |acc| :: acc[k].0 != key
    requires WellFormed(v)
    requires ParseMember(text) == Some((key, v, tail))
    ensures DistinctKeys(acc + [(key, v)])
    ensures forall k | 0 <= k < |acc + [(key, v)]| :: WellFormed((acc + [(key, v)])[k].1)
    ensures ParseMembers(text, acc) == ContinueMembers(tail, acc + [(key, v)])
  {
    PutFresh(acc, key, v);
    var acc' := acc + [(key, v)];
    forall k | 0 <= k < |acc'|
      ensures WellFormed(acc'[k].1)
    {
      if k < |acc| {
        assert acc'[k] == acc[k];
      }
    }
  }

  /** A key the dict does not hold goes to its end. */
  lemma PutFresh(acc: seq<(string, Json)>, key: string, v: Json)
    requires DistinctKeys(acc)
    requires forall k | 0 <= k < |acc| :: acc[k].0 != key
    ensures Put(acc, key, v) == acc + [(key, v)]
    ensures DistinctKeys(acc + [(key, v)])
  {
    assert Lookup(acc, key).None?;
    var r := acc + [(key, v)];
    forall a, b | 0 <= a < b < |r|
      ensures r[a].0 != r[b].0
    {
      assert r[a] == acc[a];
      if b < |acc| {
        assert r[b] == acc[b];
      }
    }
  }

  /** `}` ends the object. */
  lemma CloseMembers(rest: string, acc: seq<(string, Json)>)
    requires DistinctKeys(acc) && forall k | 0 <= k < |acc| :: WellFormed(acc[k].1)
    ensures ContinueMembers("}" + rest, acc) == Some((Obj(acc), rest))
  {
    SkipCloser('}', rest);
  }

  /** `, ` leads to the next member. */
  lemma NextMember(next: string, acc: seq<(string, Json)>)
    requires DistinctKeys(acc) && forall k | 0 <= k < |acc| :: WellFormed(acc[k].1)
    requires StartsValue(next)
    ensures ContinueMembers(", " + next, acc) == ParseMembers(next, acc)
  {
    SkipComma(next);
    var t := ", " + next;
    assert t[0] == ',';
  }

  lemma LastMemberText(ms: seq<(string, Json)>, rest: string)
    requires |ms| == 1
    ensures SerializeMembers(ms) + "}" + rest == SerializeMember(ms[0]) + ("}" + rest)
  {
    assert SerializeMembers(ms) == SerializeMember(ms[0]);
  }

  lemma MembersText(ms: seq<(string, Json)>, rest: string)
    requires |ms| > 1
    ensures SerializeMembers(ms) + "}" + rest == SerializeMember(ms[0]) + (", " + (SerializeMembers(ms[1..]) + "}" + rest))
  {
    assert SerializeMembers(ms) == SerializeMember(ms[0]) + ", " + SerializeMembers(ms[1..]);
    Regroup(SerializeMember(ms[0]), ", ", SerializeMembers(ms[1..]), "}", rest);
  }

  /** The first member of `ms` parses back and joins the members read so far. */
  lemma {:induction false} FirstMember(ms: seq<(string, Json)>, acc: seq<(string, Json)>, tail: string)
    requires ms != [] && Delimited(tail)
    requires forall k | 0 <= k < |ms| :: WellFormed(ms[k].1)
    requires DistinctKeys(acc) && forall k | 0 <= k < |acc| :: WellFormed(acc[k].1)
    requires forall k | 0 <= k < |acc| :: acc[k].0 != ms[0].0
    ensures DistinctKeys(acc + [ms[0]])
    ensures ParseMembers(SerializeMember(ms[0]) + tail, acc) == ContinueMembers(tail, acc + [ms[0]])
    decreases ms, 1
  {
    var key, v := ms[0].0, ms[0].1;
    assert ms[0] in ms;
    assert v < ms[0];
    assert WellFormed(v);
    ValueRoundTrip(v, tail);
    SerializeStarts(v);
    StartsAppend(Serialize(v), tail);
    MemberRoundTrip(key, v, tail);
    MemberStep(SerializeMember((key, v)) + tail, key, v, tail, acc);
  }

  /** A key after the members read so far is none of their keys, when all keys are distinct. */
  lemma FreshKey(acc: seq<(string, Json)>, ms: seq<(string, Json)>)
    requires ms != [] && DistinctKeys(acc + ms)
    ensures DistinctKeys(acc)
    ensures forall k | 0 <= k < |acc| :: acc[k].0 != ms[0].0
  {
    assert forall i | 0 <= i < |acc| :: (acc + ms)[i] == acc[i];
    assert (acc + ms)[|acc|] == ms[0];
  }

  lemma {:induction false} MembersRoundTrip(ms: seq<(string, Json)>, acc: seq<(string, Json)>, rest: string)
    requires ms != [] && Delimited(rest)
    requires DistinctKeys(acc) && DistinctKeys(acc + ms)
    requires forall k | 0 <= k < |ms| :: WellFormed(ms[k].1)
    requires forall k | 0 <= k < |acc| :: WellFormed(acc[k].1)
    ensures ParseMembers(SerializeMembers(ms) + "}" + rest, acc) == Some((Obj(acc + ms), rest))
    decreases ms, 2
  {
    FreshKey(acc, ms);
    var acc' := acc + [ms[0]];
    SplitFirst(acc, ms);
    if |ms| == 1 {
      LastMemberText(ms, rest);
      FirstMember(ms, acc, "}" + rest);
      CloseMembers(rest, acc');
    } else {
      MembersText(ms, rest);
      var next := SerializeMembers(ms[1..]) + "}" + rest;
      FirstMember(ms, acc, ", " + next);
      MembersStart(ms[1..], rest);
      NextMember(next, acc');
      MembersRoundTrip(ms[1..], acc', rest);
    }
  }

  /** `json.loads(json.dumps(j)) == j`. */
  lemma ParseSerialize(j: Json)
    requires WellFormed(j)
    ensures Parse(Serialize(j)) == Some(j)
  {
    SerializeStarts(j);
    SkipNothing(Serialize(j));
    ValueRoundTrip(j, []);
    assert Serialize(j) + [] == Serialize(j);
  }
}
