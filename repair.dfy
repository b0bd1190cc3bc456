/**
 * `clean_json_response`: the repair applied to every reply of the model.
 * The reply is normalised (quotes, surrounding whitespace, fences) and
 * parsed; a parsed list keeps only the entries with a truthy "description",
 * a parsed dict has each of its list-valued fields filtered that way, and
 * any other value is kept. When the parse or the filter fails, the flat
 * `{"code": ..., "description": ...}` objects are recovered from the text.
 * The result is always serialised again.
 */
module Repair {
  import opened Wrappers
  import opened JsonValue
  import opened JsonEncode
  import opened JsonDecode
  import opened JsonRoundTrip
  import opened PyText
  import opened Fences
  import opened CodePattern

  /** `re.sub(r"'", '"', s)`: every single quote becomes a double quote. */
  function ReplaceQuotes(s: string): (r: string)
    ensures |r| == |s|
    ensures forall k | 0 <= k < |s| :: r[k] == (if s[k] == '\'' then '"' else s[k])
  {
    if s == [] then [] else [if s[0] == '\'' then '"' else s[0]] + ReplaceQuotes(s[1..])
  }

  /** The text `json.loads` is given: quotes replaced, then stripped, then fences removed. */
  function Normalize(raw: string): string
  {
    StripFences(Strip(ReplaceQuotes(raw)))
  }

  predicate NoChar(s: string, c: char)
  {
    forall k | 0 <= k < |s| :: s[k] != c
  }

  /** Fence removal only drops characters: one absent before is absent after. */
  lemma {:induction false} StripFromKeepsOut(s: string, i: nat, c: char)
    requires i <= |s| && forall k | i <= k < |s| :: s[k] != c
    ensures NoChar(StripFrom(s, i), c)
    decreases |s| - i
  {
    if i < |s| {
      if OpenFenceLen(s, i) > 0 {
        StripFromKeepsOut(s, i + OpenFenceLen(s, i), c);
      } else if CloseFenceAt(s, i) {
        StripFromKeepsOut(s, i + 3, c);
      } else {
        StripFromKeepsOut(s, i + 1, c);
      }
    }
  }

  /** After normalisation the text holds no single quote. */
  lemma NormalizedNoSingleQuote(raw: string)
    ensures NoChar(Normalize(raw), '\'')
  {
    var t := Strip(ReplaceQuotes(raw));
    StripFromKeepsOut(t, 0, '\'');
  }

  /** `entry.get("description")` on a dict is truthy. */
  predicate Described(ms: seq<(string, Json)>)
  {
    var d := Lookup(ms, "description");
    d.Some? && Truthy(d.value)
  }

  /** A dict whose "description" is truthy: an entry the filter keeps. */
  predicate Kept(x: Json)
  {
    x.Obj? && Described(x.members)
  }

  /**
   * `[entry for entry in items if entry.get("description")]`. An entry that is
   * not a dict has no `get`, so the comprehension raises: None.
   */
  function FilterDescribed(items: seq<Json>): (r: Option<seq<Json>>)
    ensures r.None? <==> exists k | 0 <= k < |items| :: !items[k].Obj?
    ensures r.Some? ==> |r.value| <= |items| && forall k | 0 <= k < |r.value| :: Kept(r.value[k])
  {
    if items == [] then Some([])
    else
      var rest := FilterDescribed(items[1..]);
      assert forall k | 1 <= k < |items| :: items[k] == items[1..][k - 1];
      if !items[0].Obj? || rest.None? then None
      else if Kept(items[0]) then Some([items[0]] + rest.value)
      else Some(rest.value)
  }

  /** The filter works entry by entry: filtering a concatenation concatenates the filtered parts, so order is kept. */
  lemma {:induction false} FilterAppend(a: seq<Json>, b: seq<Json>)
    ensures FilterDescribed(a + b) ==
      (if FilterDescribed(a).Some? && FilterDescribed(b).Some?
       then Some(FilterDescribed(a).value + FilterDescribed(b).value) else None)
  {
    if a == [] {
      assert a + b == b;
      assert FilterDescribed(a) == Some([]);
      if FilterDescribed(b).Some? {
        assert [] + FilterDescribed(b).value == FilterDescribed(b).value;
      }
    } else {
      assert (a + b)[0] == a[0] && (a + b)[1..] == a[1..] + b;
      FilterAppend(a[1..], b);
      if a[0].Obj? && FilterDescribed(a[1..]).Some? && FilterDescribed(b).Some? && Kept(a[0]) {
        assert [a[0]] + FilterDescribed(a[1..]).value + FilterDescribed(b).value
          == [a[0]] + (FilterDescribed(a[1..]).value + FilterDescribed(b).value);
      }
    }
  }

  /** One entry alone: a dict is kept exactly when its description is truthy. */
  lemma FilterOne(x: Json)
    ensures FilterDescribed([x]) == if !x.Obj? then None else if Kept(x) then Some([x]) else Some([])
  {
    assert [x][1..] == [];
    assert [x] + [] == [x];
  }

  /** The filter keeps exactly the dicts with a truthy description. */
  lemma {:induction false} FilterMembers(items: seq<Json>)
    requires FilterDescribed(items).Some?
    ensures forall x :: x in FilterDescribed(items).value <==> x in items && Kept(x)
  {
    if items != [] {
      FilterMembers(items[1..]);
      assert forall x :: x in items <==> x == items[0] || x in items[1..];
    }
  }

  /** What the dict branch makes of one field: a list is filtered, any other value stays. */
  function FilterField(v: Json): Option<Json>
  {
    if v.Arr? then
      match FilterDescribed(v.items)
      case Some(kept) => Some(Arr(kept))
      case None => None
    else Some(v)
  }

  /**
   * The dict branch's loop over `data.items()`: every list-valued field is
   * filtered, keys and other values stay as they were; None when a filter raises.
   */
  function FilteredMembers(ms: seq<(string, Json)>): (r: Option<seq<(string, Json)>>)
    ensures r.None? <==> exists k | 0 <= k < |ms| :: FilterField(ms[k].1).None?
    ensures r.Some? ==> (|r.value| == |ms|
      && forall k | 0 <= k < |ms| :: r.value[k].0 == ms[k].0 && FilterField(ms[k].1) == Some(r.value[k].1))
  {
    if ms == [] then Some([])
    else
      var n := |ms| - 1;
      var front := FilteredMembers(ms[..n]);
      assert forall k | 0 <= k < n :: ms[..n][k] == ms[k];
      if front.None? then None
      else match FilterField(ms[n].1)
        case None => None
        case Some(v) => Some(front.value + [(ms[n].0, v)])
  }

  /**
   * The loop of the dict branch, run on the dict in place: `data[key] = ...`
   * overwrites the value of a key already present.
   */
  method FilterListFields(ms: seq<(string, Json)>) returns (r: Option<seq<(string, Json)>>)
    requires DistinctKeys(ms)
    ensures r == FilteredMembers(ms)
  {
    var data := ms;
    var i := 0;
    while i < |data|
      invariant i <= |data| == |ms|
      invariant data[i..] == ms[i..]
      invariant forall k | 0 <= k < |ms| :: data[k].0 == ms[k].0
      invariant FilteredMembers(ms[..i]) == Some(data[..i])
    {
      var key := data[i].0;
      var value := data[i].1;
      assert data[i] == ms[i];
      if value.Arr? {
        var kept := FilterDescribed(value.items);
        if kept.None? {
          assert FilterField(ms[i].1).None?;
          return None;
        }
        AdvanceFields(ms, data, i, Arr(kept.value));
        SameKeysDistinct(ms, data);
        PutAt(data, i, Arr(kept.value));
        data := Put(data, key, Arr(kept.value));
      } else {
        AdvanceFields(ms, data, i, value);
        assert data[..i] + [(key, value)] + data[i + 1..] == data;
      }
      i := i + 1;
    }
    assert ms[..i] == ms && data[..i] == data;
    return Some(data);
  }

  /** One more field of the loop: the prefix filtered so far grows by that field. */
  lemma AdvanceFields(ms: seq<(string, Json)>, data: seq<(string, Json)>, i: nat, v: Json)
    requires i < |data| == |ms| && data[i..] == ms[i..]
    requires forall k | 0 <= k < |ms| :: data[k].0 == ms[k].0
    requires FilteredMembers(ms[..i]) == Some(data[..i])
    requires FilterField(ms[i].1) == Some(v)
    ensures var next := data[..i] + [(ms[i].0, v)] + data[i + 1..];
      |next| == |ms| && next[i + 1..] == ms[i + 1..]
      && (forall k | 0 <= k < |ms| :: next[k].0 == ms[k].0)
      && FilteredMembers(ms[..i + 1]) == Some(next[..i + 1])
  {
    var next := data[..i] + [(ms[i].0, v)] + data[i + 1..];
    assert ms[..i + 1][..i] == ms[..i];
    assert ms[..i + 1][i] == ms[i];
    assert next[..i + 1] == data[..i] + [(ms[i].0, v)];
    assert data[i + 1..] == ms[i + 1..] by {
      assert data[i + 1..] == data[i..][1..];
    }
    assert next[i + 1..] == data[i + 1..];
  }

  lemma SameKeysDistinct(ms: seq<(string, Json)>, data: seq<(string, Json)>)
    requires DistinctKeys(ms) && |data| == |ms|
    requires forall k | 0 <= k < |ms| :: data[k].0 == ms[k].0
    ensures DistinctKeys(data)
  {
  }

  /** `json.loads` applied to each matched text. */
  function ParseEach(matches: seq<string>): (r: seq<Option<Json>>)
    ensures |r| == |matches|
    ensures forall k | 0 <= k < |matches| :: r[k] == Parse(matches[k])
  {
    seq(|matches|, k requires 0 <= k < |matches| => Parse(matches[k]))
  }

  /**
   * `recovered` after the loop, given what `json.loads` made of each matched
   * text: the parsed dicts with a truthy description, in the order of their texts.
   */
  function Recovered(parsed: seq<Option<Json>>): (r: seq<Json>)
    ensures |r| <= |parsed|
    ensures forall k | 0 <= k < |r| :: Kept(r[k])
  {
    if parsed == [] then []
    else
      var n := |parsed| - 1;
      var front := Recovered(parsed[..n]);
      if parsed[n].Some? && Kept(parsed[n].value) then front + [parsed[n].value] else front
  }

  /** The recovery works text by text: it distributes over concatenation, so order is kept. */
  lemma {:induction false} RecoveredAppend(a: seq<Option<Json>>, b: seq<Option<Json>>)
    ensures Recovered(a + b) == Recovered(a) + Recovered(b)
    decreases |b|
  {
    if b == [] {
      assert a + b == a;
    } else {
      var n := |b| - 1;
      assert (a + b)[..|a| + n] == a + b[..n];
      assert (a + b)[|a| + n] == b[n];
      RecoveredAppend(a, b[..n]);
    }
  }

  /** A single text yields its parsed dict when the description is truthy, and nothing otherwise. */
  lemma RecoveredOne(o: Option<Json>)
    ensures Recovered([o]) == if o.Some? && Kept(o.value) then [o.value] else []
  {
    assert [o][..0] == [];
  }

  /** What the recovery keeps comes from the parsed texts, so it is well-formed when they are. */
  lemma {:induction false} RecoveredWellFormed(parsed: seq<Option<Json>>)
    requires forall k | 0 <= k < |parsed| :: parsed[k].Some? ==> WellFormed(parsed[k].value)
    ensures forall k | 0 <= k < |Recovered(parsed)| :: WellFormed(Recovered(parsed)[k])
    decreases |parsed|
  {
    if parsed != [] {
      var n := |parsed| - 1;
      RecoveredWellFormed(parsed[..n]);
    }
  }

  /** One more text: the recovery of a prefix grows by that text's dict, if it is kept. */
  lemma RecoveredStep(parsed: seq<Option<Json>>, i: nat)
    requires i < |parsed|
    ensures Recovered(parsed[..i + 1]) ==
      Recovered(parsed[..i]) + (if parsed[i].Some? && Kept(parsed[i].value) then [parsed[i].value] else [])
  {
    assert parsed[..i + 1][..i] == parsed[..i];
    assert parsed[..i + 1][i] == parsed[i];
  }

  /** The `for m in matches` loop with its `append`. */
  method RecoverObjects(matches: seq<string>) returns (recovered: seq<Json>)
    ensures recovered == Recovered(ParseEach(matches))
  {
    ghost var parsed := ParseEach(matches);
    recovered := [];
    var i := 0;
    while i < |matches|
      invariant i <= |matches|
      invariant recovered == Recovered(parsed[..i])
    {
      var obj := Parse(matches[i]);
      RecoveredStep(parsed, i);
      if obj.Some? && Kept(obj.value) {
        recovered := recovered + [obj.value];
      }
      i := i + 1;
    }
    assert parsed[..i] == parsed;
  }

  /** The except branch: the objects recovered from the texts the pattern finds. */
  function Fallback(cleaned: string): Json
  {
    Arr(Recovered(ParseEach(FindAll(cleaned))))
  }

  /**
   * The try block given what `json.loads` made of the text: a list is
   * filtered, a dict has its list fields filtered, any other value stays;
   * `fallback` is what the except branch recovers, used when the parse or a filter fails.
   */
  function Repaired(parsed: Option<Json>, fallback: Json): Json
  {
    match parsed
    case None => fallback
    case Some(data) =>
      match data
      case Arr(items) =>
        (match FilterDescribed(items)
         case Some(kept) => Arr(kept)
         case None => fallback)
      case Obj(ms) =>
        (match FilteredMembers(ms)
         case Some(fields) => Obj(fields)
         case None => fallback)
      case _ => data
  }

  /** The value `clean_json_response` serialises, from the normalised text. */
  function RepairValue(cleaned: string): Json
  {
    Repaired(Parse(cleaned), Fallback(cleaned))
  }

  /** `clean_json_response(raw)`: `json.dumps` of the repaired value. */
  function RepairedText(raw: string): string
  {
    Serialize(RepairValue(Normalize(raw)))
  }

  /** The function as written: rebinding the text step by step, then try/except. */
  method CleanJsonResponse(response: string) returns (out: string)
    ensures out == RepairedText(response)
  {
    var replaced := ReplaceQuotes(response);
    var cleaned := StripFences(Strip(replaced));
    assert cleaned == Normalize(response);
    var data := RepairCleaned(cleaned);
    return Serialize(data);
  }

  /** The try/except on the normalised text: filter what parses, else recover dicts. */
  method RepairCleaned(cleaned: string) returns (data: Json)
    ensures data == RepairValue(cleaned)
  {
    var parsed := Parse(cleaned);
    var attempt := TryFilter(parsed, Fallback(cleaned));
    if attempt.Some? {
      return attempt.value;
    }
    var matches := FindAll(cleaned);
    var recovered := RecoverObjects(matches);
    return Arr(recovered);
  }

  /** The try block once `json.loads` has answered: the filtered value, or None where it raises. */
  method TryFilter(parsed: Option<Json>, ghost fallback: Json) returns (r: Option<Json>)
    requires parsed.Some? ==> WellFormed(parsed.value)
    ensures r.Some? ==> Repaired(parsed, fallback) == r.value
    ensures r.None? ==> Repaired(parsed, fallback) == fallback
  {
    if parsed.None? {
      return None;
    }
    var data := parsed.value;
    if data.Arr? {
      var kept := FilterDescribed(data.items);
      if kept.None? {
        return None;
      }
      return Some(Arr(kept.value));
    } else if data.Obj? {
      var fields := FilterListFields(data.members);
      if fields.None? {
        return None;
      }
      return Some(Obj(fields.value));
    }
    return Some(data);
  }

  /** A filtered field of a well-formed value is well-formed. */
  lemma FilterFieldWellFormed(v: Json)
    requires WellFormed(v) && FilterField(v).Some?
    ensures WellFormed(FilterField(v).value)
  {
    if v.Arr? {
      var kept := FilterDescribed(v.items).value;
      FilterMembers(v.items);
      forall k | 0 <= k < |kept|
        ensures WellFormed(kept[k])
      {
        assert kept[k] in v.items;
      }
    }
  }

  /** Every repaired value is well-formed: its dicts have distinct keys. */
  lemma RepairValueWellFormed(cleaned: string)
    ensures WellFormed(RepairValue(cleaned))
  {
    var fb := Fallback(cleaned);
    assert WellFormed(fb) by {
      RecoveredWellFormed(ParseEach(FindAll(cleaned)));
    }
    match Parse(cleaned)
    case None =>
    case Some(data) =>
      match data
      case Arr(items) =>
        if FilterDescribed(items).Some? {
          FilterFieldWellFormed(data);
        }
      case Obj(ms) =>
        var r := FilteredMembers(ms);
        if r.Some? {
          var fields := r.value;
          forall k | 0 <= k < |fields|
            ensures WellFormed(fields[k].1)
          {
            assert WellFormed(ms[k].1);
            FilterFieldWellFormed(ms[k].1);
          }
          SameKeysDistinct(ms, fields);
        }
      case _ =>
  }

  /** The function never fails and its text always parses, to the repaired value. */
  lemma RepairParses(raw: string)
    ensures Parse(RepairedText(raw)) == Some(RepairValue(Normalize(raw)))
  {
    RepairValueWellFormed(Normalize(raw));
    ParseSerialize(RepairValue(Normalize(raw)));
  }

  /**
   * A top-level list of dicts comes back as exactly the entries with a truthy
   * description, in their order.
   */
  lemma RepairList(cleaned: string, items: seq<Json>)
    requires Parse(cleaned) == Some(Arr(items))
    requires forall k | 0 <= k < |items| :: items[k].Obj?
    ensures RepairValue(cleaned) == Arr(FilterDescribed(items).value)
    ensures forall x :: x in RepairValue(cleaned).items <==> x in items && Kept(x)
  {
    FilterMembers(items);
    ListRepaired(items, Fallback(cleaned));
  }

  lemma ListRepaired(items: seq<Json>, fallback: Json)
    requires forall k | 0 <= k < |items| :: items[k].Obj?
    ensures FilterDescribed(items).Some?
    ensures Repaired(Some(Arr(items)), fallback) == Arr(FilterDescribed(items).value)
  {
  }

  /**
   * A top-level dict comes back with the same keys in the same order; a
   * list-valued field is filtered and every other value is unchanged.
   */
  lemma RepairDict(cleaned: string, ms: seq<(string, Json)>)
    requires Parse(cleaned) == Some(Obj(ms))
    requires forall k | 0 <= k < |ms| :: ms[k].1.Arr? ==> forall m | 0 <= m < |ms[k].1.items| :: ms[k].1.items[m].Obj?
    ensures RepairValue(cleaned).Obj? && |RepairValue(cleaned).members| == |ms|
    ensures forall k | 0 <= k < |ms| :: RepairValue(cleaned).members[k].0 == ms[k].0
    ensures forall k | 0 <= k < |ms| :: !ms[k].1.Arr? ==> RepairValue(cleaned).members[k].1 == ms[k].1
    ensures forall k | 0 <= k < |ms| :: ms[k].1.Arr? ==>
      RepairValue(cleaned).members[k].1 == Arr(FilterDescribed(ms[k].1.items).value)
  {
    DictRepaired(ms, Fallback(cleaned));
  }

  lemma DictRepaired(ms: seq<(string, Json)>, fallback: Json)
    requires forall k | 0 <= k < |ms| :: ms[k].1.Arr? ==> forall m | 0 <= m < |ms[k].1.items| :: ms[k].1.items[m].Obj?
    ensures FilteredMembers(ms).Some?
    ensures Repaired(Some(Obj(ms)), fallback) == Obj(FilteredMembers(ms).value)
  {
    forall k | 0 <= k < |ms|
      ensures FilterField(ms[k].1).Some?
    {
      if ms[k].1.Arr? {
        assert FilterDescribed(ms[k].1.items).Some?;
      }
    }
  }

  /** A top-level string, number, bool or null is serialised again unchanged. */
  lemma RepairScalar(cleaned: string, v: Json)
    requires Parse(cleaned) == Some(v) && !v.Arr? && !v.Obj?
    ensures RepairValue(cleaned) == v
    ensures Parse(Serialize(RepairValue(cleaned))) == Parse(cleaned)
  {
    ParseSerialize(v);
  }

  /** A list entry that is not a dict makes the filter raise: the text goes to recovery, it is not passed through. */
  lemma NonDictDiverts(cleaned: string, items: seq<Json>, k: nat)
    requires Parse(cleaned) == Some(Arr(items))
    requires k < |items| && !items[k].Obj?
    ensures RepairValue(cleaned) == Fallback(cleaned)
  {
    ListDiverts(items, k, Fallback(cleaned));
  }

  lemma ListDiverts(items: seq<Json>, k: nat, fallback: Json)
    requires k < |items| && !items[k].Obj?
    ensures Repaired(Some(Arr(items)), fallback) == fallback
  {
  }

  /** The same inside a dict: one list field with a non-dict entry sends the whole text to recovery. */
  lemma NonDictFieldDiverts(cleaned: string, ms: seq<(string, Json)>, k: nat, m: nat)
    requires Parse(cleaned) == Some(Obj(ms))
    requires k < |ms| && ms[k].1.Arr? && m < |ms[k].1.items| && !ms[k].1.items[m].Obj?
    ensures RepairValue(cleaned) == Fallback(cleaned)
  {
    FieldRaises(ms, k, m);
    assert Repaired(Some(Obj(ms)), Fallback(cleaned)) == Fallback(cleaned);
  }

  lemma FieldRaises(ms: seq<(string, Json)>, k: nat, m: nat)
    requires k < |ms| && ms[k].1.Arr? && m < |ms[k].1.items| && !ms[k].1.items[m].Obj?
    ensures FilteredMembers(ms).None?
  {
    assert FilterField(ms[k].1).None?;
  }

  /**
   * When the text does not parse, the result is the list of dicts with a truthy
   * description parsed from the pattern's matches, in text order; with no
   * match it is the empty list, written `[]`.
   */
  lemma RepairFallback(cleaned: string)
    requires Parse(cleaned).None?
    ensures RepairValue(cleaned) == Arr(Recovered(ParseEach(FindAll(cleaned))))
    ensures forall k | 0 <= k < |RepairValue(cleaned).items| :: Kept(RepairValue(cleaned).items[k])
    ensures FindAll(cleaned) == [] ==> RepairValue(cleaned) == Arr([]) && Serialize(RepairValue(cleaned)) == "[]"
  {
    var found := FindAll(cleaned);
    assert RepairValue(cleaned) == Arr(Recovered(ParseEach(found)));
    NothingFound(found);
  }

  /** No match recovers nothing, and the empty list is written `[]`. */
  lemma NothingFound(found: seq<string>)
    ensures found == [] ==> Arr(Recovered(ParseEach(found))) == Arr([]) && Serialize(Arr([])) == "[]"
  {
    if found == [] {
      assert ParseEach(found) == [];
      assert Serialize(Arr([])) == "[" + SerializeItems([]) + "]";
    }
  }
}
