/**
 * The values Python's `json.loads` produces and `json.dumps` accepts.
 * A dict keeps its insertion order, so an object is a sequence of
 * key/value pairs; the decoder never produces two pairs with one key.
 */
module JsonValue {
  import opened Wrappers

  datatype Json =
    | Null
    | Bool(b: bool)
    | Int(i: int)
    | Str(s: string)
    | Arr(items: seq<Json>)
    | Obj(members: seq<(string, Json)>)

  /** No key occurs twice among the members of a dict. */
  predicate DistinctKeys(ms: seq<(string, Json)>)
  {
    forall i, j | 0 <= i < j < |ms| :: ms[i].0 != ms[j].0
  }

  /** Every dict, at every depth, has distinct keys: the shape of any decoded value. */
  predicate WellFormed(j: Json)
    decreases j
  {
    match j
    case Arr(items) => forall k | 0 <= k < |items| :: WellFormed(items[k])
    case Obj(ms) => DistinctKeys(ms) && forall k | 0 <= k < |ms| :: WellFormed(ms[k].1)
    case _ => true
  }

  /** `d.get(key)` on a dict: the value stored under `key`, or None. */
  function Lookup(ms: seq<(string, Json)>, key: string): (r: Option<Json>)
    ensures r.None? <==> forall k | 0 <= k < |ms| :: ms[k].0 != key
  {
    if ms == [] then None
    else if ms[0].0 == key then Some(ms[0].1)
    else
      assert forall k | 1 <= k < |ms| :: ms[k] == ms[1..][k - 1];
      Lookup(ms[1..], key)
  }

  /**
   * `d[key] = v` on a dict: an existing key keeps its position and takes the
   * new value, a new key goes to the end.
   */
  function Put(ms: seq<(string, Json)>, key: string, v: Json): (r: seq<(string, Json)>)
    ensures Lookup(r, key) == Some(v)
    ensures forall other | other != key :: Lookup(r, other) == Lookup(ms, other)
    ensures Lookup(ms, key).None? ==> r == ms + [(key, v)]
  {
    if ms == [] then [(key, v)]
    else if ms[0].0 == key then
      var r := [(key, v)] + ms[1..];
      assert r[1..] == ms[1..];
      r
    else
      var tail := Put(ms[1..], key, v);
      var r := [ms[0]] + tail;
      assert r[1..] == tail;
      r
  }

  /** Storing under a key keeps the keys of a dict distinct. */
  lemma {:induction false} PutDistinct(ms: seq<(string, Json)>, key: string, v: Json)
    requires DistinctKeys(ms)
    ensures DistinctKeys(Put(ms, key, v))
    decreases |ms|
  {
    if ms == [] {
    } else if ms[0].0 == key {
      var r := Put(ms, key, v);
      assert forall k | 0 <= k < |ms| :: r[k].0 == ms[k].0;
    } else {
      var tail := Put(ms[1..], key, v);
      DistinctTail(ms);
      PutDistinct(ms[1..], key, v);
      assert forall k | 0 <= k < |ms[1..]| :: ms[1..][k].0 != ms[0].0;
      assert Lookup(tail, ms[0].0).None?;
      var r := [ms[0]] + tail;
      assert Put(ms, key, v) == r;
      forall a, b | 0 <= a < b < |r|
        ensures r[a].0 != r[b].0
      {
        assert r[b] == tail[b - 1];
        if a > 0 {
          assert r[a] == tail[a - 1];
        }
      }
    }
  }

  /** `d[key] = v` for a key already at position `i`: only that position changes. */
  lemma {:induction false} PutAt(ms: seq<(string, Json)>, i: nat, v: Json)
    requires DistinctKeys(ms) && i < |ms|
    ensures Put(ms, ms[i].0, v) == ms[..i] + [(ms[i].0, v)] + ms[i + 1..]
    decreases i
  {
    if i > 0 {
      var key := ms[i].0;
      var tail := ms[1..];
      assert ms[0].0 != key;
      assert Put(ms, key, v) == [ms[0]] + Put(tail, key, v);
      DistinctTail(ms);
      assert tail[i - 1] == ms[i];
      PutAt(tail, i - 1, v);
      Recombine(ms, i, (key, v));
    }
  }

  lemma DistinctTail(ms: seq<(string, Json)>)
    requires DistinctKeys(ms) && ms != []
    ensures DistinctKeys(ms[1..])
  {
    forall a, b | 0 <= a < b < |ms| - 1
      ensures ms[1..][a].0 != ms[1..][b].0
    {
      assert ms[1..][a] == ms[a + 1] && ms[1..][b] == ms[b + 1];
    }
  }

  lemma Recombine(ms: seq<(string, Json)>, i: nat, m: (string, Json))
    requires 0 < i < |ms|
    ensures [ms[0]] + (ms[1..][..i - 1] + [m] + ms[1..][i..]) == ms[..i] + [m] + ms[i + 1..]
  {
    assert ms[1..][..i - 1] == ms[1..i] && ms[1..][i..] == ms[i + 1..];
    assert ms[..i] == [ms[0]] + ms[1..i];
  }

  /** Python truthiness of a decoded value: `None`, `False`, `0`, `""`, `[]` and `{}` are false. */
  predicate Truthy(j: Json)
  {
    match j
    case Null => false
    case Bool(b) => b
    case Int(i) => i != 0
    case Str(s) => s != ""
    case Arr(items) => items != []
    case Obj(ms) => ms != []
  }
}
