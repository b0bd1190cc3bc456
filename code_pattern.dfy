/**
 * The recovery pattern for flat ICD-10 objects,
 * `\{[^{}]*"code"\s*:\s*"[^"]*",\s*"description"\s*:\s*"[^"]*"\s*\}`,
 * and `re.findall` with it: the leftmost match is taken, the scan resumes
 * after it, so the matches never overlap.
 * What the pattern matches is defined relationally (`TokensMatch`,
 * `MatchWith`); the engine's greedy scan (`MatchTokens`, `Backtrack`,
 * `MatchAt`) is proved to find exactly those matches.
 */
module CodePattern {
  import opened Wrappers
  import opened PyText

  /** `[^"]*`, greedy: the length of the run without a double quote from `j`. */
  function QuoteFreeRun(s: string, j: nat): (n: nat)
    requires j <= |s|
    decreases |s| - j
    ensures j + n <= |s|
    ensures forall k | j <= k < j + n :: s[k] != '"'
    ensures j + n == |s| || s[j + n] == '"'
  {
    if j < |s| && s[j] != '"' then 1 + QuoteFreeRun(s, j + 1) else 0
  }

  /** `[^{}]*`, greedy: the length of the run without a brace from `j`. */
  function BraceFreeRun(s: string, j: nat): (n: nat)
    requires j <= |s|
    decreases |s| - j
    ensures j + n <= |s|
    ensures forall k | j <= k < j + n :: s[k] != '{' && s[k] != '}'
    ensures j + n == |s| || s[j + n] == '{' || s[j + n] == '}'
  {
    if j < |s| && s[j] != '{' && s[j] != '}' then 1 + BraceFreeRun(s, j + 1) else 0
  }

  /** One element of the pattern: a literal character, `\s*`, or `[^"]*`. */
  datatype Token = Lit(c: char) | Spaces | QuoteFree

  /** A word as a run of literal characters. */
  function Word(w: string): (ts: seq<Token>)
    ensures |ts| == |w| && forall k | 0 <= k < |w| :: ts[k] == Lit(w[k])
  {
    seq(|w|, k requires 0 <= k < |w| => Lit(w[k]))
  }

  /** The pattern after `\{[^{}]*`: `"code"\s*:\s*"[^"]*",\s*"description"\s*:\s*"[^"]*"\s*\}`. */
  const Tail: seq<Token> :=
    Word("\"code\"") + [Spaces, Lit(':'), Spaces, Lit('"'), QuoteFree, Lit('"'), Lit(','), Spaces]
    + Word("\"description\"") + [Spaces, Lit(':'), Spaces, Lit('"'), QuoteFree, Lit('"'), Spaces, Lit('}')]

  /** The characters a token takes: its own character, whitespace, or anything but `"`. */
  predicate InClass(t: Token, c: char)
  {
    match t
    case Lit(d) => c == d
    case Spaces => IsSpace(c)
    case QuoteFree => c != '"'
  }

  /**
   * `s[j..e]` matches the token list, each run taking any number of
   * characters of its class: the regex semantics, with no engine behind it.
   */
  predicate TokensMatch(s: string, j: nat, toks: seq<Token>, e: nat)
    decreases |toks|
  {
    j <= e <= |s| &&
    if toks == [] then e == j
    else if toks[0].Lit? then j < |s| && s[j] == toks[0].c && TokensMatch(s, j + 1, toks[1..], e)
    else exists m | j <= m <= e ::
      (forall k | j <= k < m :: InClass(toks[0], s[k])) && TokensMatch(s, m, toks[1..], e)
  }

  /** Every run is followed by a literal outside its class, so it can end in one place only. */
  predicate Delimited(toks: seq<Token>)
  {
    forall k | 0 <= k < |toks| ::
      !toks[k].Lit? ==> k + 1 < |toks| && toks[k + 1].Lit? && !InClass(toks[k], toks[k + 1].c)
  }

  /** The tail of the pattern needs no backtracking. */
  lemma TailRunsDelimited()
    ensures |Tail| == 35 && Tail[0] == Lit('"')
    ensures Delimited(Tail)
  {
  }

  /** Matching `toks` greedily from `j`: where the match ends. */
  function MatchTokens(s: string, j: nat, toks: seq<Token>): (r: Option<nat>)
    requires j <= |s|
    decreases |toks|
    ensures r.Some? ==> j <= r.value <= |s|
  {
    if toks == [] then Some(j)
    else match toks[0]
      case Lit(c) => if j < |s| && s[j] == c then MatchTokens(s, j + 1, toks[1..]) else None
      case Spaces => MatchTokens(s, j + SpaceRun(s, j), toks[1..])
      case QuoteFree => MatchTokens(s, j + QuoteFreeRun(s, j), toks[1..])
  }

  /** The tail of the pattern matched from `j`: where the match ends. */
  function TailEnd(s: string, j: nat): (r: Option<nat>)
    requires j <= |s|
    ensures r.Some? ==> j < r.value <= |s|
  {
    var r := MatchTokens(s, j, Tail);
    if r.Some? then
      assert Tail[0] == Lit('"');
      assert s[j] == '"';
      r
    else r
  }

  /** `[^"]*` stops exactly at the first double quote. */
  lemma QuoteFreeRunExact(s: string, j: nat, n: nat)
    requires j + n <= |s|
    requires forall k | j <= k < j + n :: s[k] != '"'
    requires j + n == |s| || s[j + n] == '"'
    ensures QuoteFreeRun(s, j) == n
    decreases n
  {
    if n > 0 {
      QuoteFreeRunExact(s, j + 1, n - 1);
    }
  }

  /** A run at the head of a match takes some stretch of its class, and the rest matches after it. */
  lemma RunTaken(s: string, j: nat, toks: seq<Token>, e: nat)
    requires toks != [] && !toks[0].Lit? && TokensMatch(s, j, toks, e)
    ensures exists m | j <= m <= e :: (forall k | j <= k < m :: InClass(toks[0], s[k])) && TokensMatch(s, m, toks[1..], e)
  {
  }

  /** Dropping the first token keeps a token list delimited. */
  lemma DelimitedRest(toks: seq<Token>)
    requires toks != [] && Delimited(toks)
    ensures Delimited(toks[1..])
  {
    var rest := toks[1..];
    forall k | 0 <= k < |rest| && !rest[k].Lit?
      ensures k + 1 < |rest| && rest[k + 1].Lit? && !InClass(rest[k], rest[k + 1].c)
    {
      assert rest[k] == toks[k + 1];
    }
  }

  /**
   * On a delimited token list the greedy scan ends exactly where the
   * relational match ends: it finds a match, and only a match.
   */
  lemma {:induction false} GreedyIsMatch(s: string, j: nat, toks: seq<Token>, e: nat)
    requires j <= |s| && Delimited(toks)
    ensures MatchTokens(s, j, toks) == Some(e) <==> TokensMatch(s, j, toks, e)
    decreases |toks|
  {
    if toks != [] {
      var rest := toks[1..];
      DelimitedRest(toks);
      match toks[0]
      case Lit(c) =>
        if j < |s| && s[j] == c {
          GreedyIsMatch(s, j + 1, rest, e);
        }
      case Spaces =>
        var n := SpaceRun(s, j);
        GreedyIsMatch(s, j + n, rest, e);
        RunStep(s, j, toks, e, n);
      case QuoteFree =>
        var n := QuoteFreeRun(s, j);
        GreedyIsMatch(s, j + n, rest, e);
        RunStep(s, j, toks, e, n);
    }
  }

  /**
   * A run at the head of a delimited token list, taken as far as its class
   * goes: a match through the run can only end the run where the scan does.
   */
  lemma RunStep(s: string, j: nat, toks: seq<Token>, e: nat, n: nat)
    requires toks != [] && !toks[0].Lit? && Delimited(toks) && j + n <= |s|
    requires forall k | j <= k < j + n :: InClass(toks[0], s[k])
    requires j + n == |s| || !InClass(toks[0], s[j + n])
    requires MatchTokens(s, j, toks) == MatchTokens(s, j + n, toks[1..])
    requires MatchTokens(s, j + n, toks[1..]) == Some(e) <==> TokensMatch(s, j + n, toks[1..], e)
    ensures MatchTokens(s, j, toks) == Some(e) <==> TokensMatch(s, j, toks, e)
  {
    var rest := toks[1..];
    assert rest[0] == toks[1] && rest[0].Lit? && !InClass(toks[0], rest[0].c);
    if MatchTokens(s, j, toks) == Some(e) {
      assert TokensMatch(s, j + n, rest, e);
    }
    if TokensMatch(s, j, toks, e) {
      RunTaken(s, j, toks, e);
      var m :| j <= m <= e && (forall k | j <= k < m :: InClass(toks[0], s[k])) && TokensMatch(s, m, rest, e);
      assert m == j + n;
    }
  }

  /** The scan of the tail from `j` ends at `e` exactly when `s[j..e]` matches the tail. */
  lemma TailMatches(s: string, j: nat, e: nat)
    requires j <= |s|
    ensures TailEnd(s, j) == Some(e) <==> TokensMatch(s, j, Tail, e)
  {
    TailRunsDelimited();
    GreedyIsMatch(s, j, Tail, e);
  }

  /** `[^{}]*` gives back one character at a time, from `k` characters down to none, until the rest matches. */
  function Backtrack(s: string, b: nat, k: nat): (r: Option<nat>)
    requires b + k <= |s|
    decreases k
    ensures r.Some? ==> b < r.value <= |s|
  {
    match TailEnd(s, b + k)
    case Some(e) => Some(e)
    case None => if k == 0 then None else Backtrack(s, b, k - 1)
  }

  /** The regex engine's attempt at position `i`: where the match ends, if there is one. */
  function MatchAt(s: string, i: nat): (r: Option<nat>)
    requires i <= |s|
    ensures r.Some? ==> i < r.value <= |s|
  {
    if i < |s| && s[i] == '{' then Backtrack(s, i + 1, BraceFreeRun(s, i + 1)) else None
  }

  /** A brace stands at `m`. */
  predicate BraceAt(s: string, m: nat)
  {
    m < |s| && (s[m] == '{' || s[m] == '}')
  }

  /** `s[i..e]` matches the whole pattern, `[^{}]*` taking `k` characters. */
  predicate MatchWith(s: string, i: nat, k: nat, e: nat)
  {
    i < |s| && s[i] == '{' && i + 1 + k <= |s|
    && (forall m | i + 1 <= m < i + 1 + k :: !BraceAt(s, m))
    && TokensMatch(s, i + 1 + k, Tail, e)
  }

  /** `s[i..e]` matches the whole pattern, for some length of the `[^{}]*` stretch. */
  predicate PatternMatch(s: string, i: nat, e: nat)
  {
    exists n: nat | n <= |s| :: MatchWith(s, i, n, e)
  }

  lemma {:induction false} BacktrackFinds(s: string, b: nat, k: nat)
    requires b + k <= |s|
    ensures Backtrack(s, b, k).Some? ==>
      exists j0 | b <= j0 <= b + k :: TailEnd(s, j0) == Backtrack(s, b, k)
        && forall j1 | j0 < j1 <= b + k :: TailEnd(s, j1).None?
    ensures Backtrack(s, b, k).None? ==> forall j0 | b <= j0 <= b + k :: TailEnd(s, j0).None?
    decreases k
  {
    if TailEnd(s, b + k).None? && k > 0 {
      BacktrackFinds(s, b, k - 1);
    }
  }

  /** `[^{}]*` can take no more than the greedy brace-free run. */
  lemma BraceRunBound(s: string, i: nat, k: nat, e: nat)
    requires i < |s|
    ensures MatchWith(s, i, k, e) ==> k <= BraceFreeRun(s, i + 1)
  {
    var m := i + 1 + BraceFreeRun(s, i + 1);
    assert MatchWith(s, i, k, e) && m < i + 1 + k ==> !BraceAt(s, m);
  }

  /**
   * A match found at `i` is a match of the pattern, and `[^{}]*` took as many
   * characters as it could: no longer brace-free stretch leads to a match.
   */
  lemma MatchAtGreedy(s: string, i: nat)
    requires i <= |s| && MatchAt(s, i).Some?
    ensures exists k: nat | k <= |s| ::
      MatchWith(s, i, k, MatchAt(s, i).value) && forall k2, e2 | k < k2 :: !MatchWith(s, i, k2, e2)
  {
    var n := BraceFreeRun(s, i + 1);
    BacktrackFinds(s, i + 1, n);
    var j0 :| i + 1 <= j0 <= i + 1 + n && TailEnd(s, j0) == MatchAt(s, i)
      && forall j1 | j0 < j1 <= i + 1 + n :: TailEnd(s, j1).None?;
    var k0 := j0 - i - 1;
    TailMatches(s, j0, MatchAt(s, i).value);
    assert MatchWith(s, i, k0, MatchAt(s, i).value);
    forall k2, e2 | k0 < k2
      ensures !MatchWith(s, i, k2, e2)
    {
      BraceRunBound(s, i, k2, e2);
      if k2 <= n {
        TailMatches(s, i + 1 + k2, e2);
      }
    }
  }

  /** When the attempt at `i` fails, no stretch at `i` matches the pattern. */
  lemma MatchAtComplete(s: string, i: nat)
    requires i <= |s| && MatchAt(s, i).None?
    ensures forall k, e :: !MatchWith(s, i, k, e)
  {
    if i < |s| && s[i] == '{' {
      var n := BraceFreeRun(s, i + 1);
      BacktrackFinds(s, i + 1, n);
      forall k, e
        ensures !MatchWith(s, i, k, e)
      {
        BraceRunBound(s, i, k, e);
        if k <= n {
          TailMatches(s, i + 1 + k, e);
        }
      }
    }
  }

  /** The spans `(start, end)` of the matches `re.findall` reports, the scan standing at `p`. */
  function FindSpans(s: string, p: nat): (spans: seq<(nat, nat)>)
    requires p <= |s|
    decreases |s| - p
    ensures forall k | 0 <= k < |spans| :: p <= spans[k].0 < spans[k].1 <= |s|
    ensures forall k | 0 <= k < |spans| :: MatchAt(s, spans[k].0) == Some(spans[k].1)
    ensures forall i, j | 0 <= i < j < |spans| :: spans[i].1 <= spans[j].0
  {
    if p == |s| then []
    else match MatchAt(s, p)
      case Some(e) =>
        var rest := FindSpans(s, e);
        var spans := [(p, e)] + rest;
        assert forall k | 1 <= k < |spans| :: spans[k] == rest[k - 1];
        assert forall k | 0 <= k < |rest| :: e <= rest[k].0;
        spans
      case None => FindSpans(s, p + 1)
  }

  /**
   * `re.findall(pattern, s)`: the texts of the reported spans, in text order;
   * each span is a stretch the pattern matches.
   */
  function FindAll(s: string): (ms: seq<string>)
    ensures |ms| == |FindSpans(s, 0)|
    ensures forall k | 0 <= k < |ms| :: ms[k] == s[FindSpans(s, 0)[k].0..FindSpans(s, 0)[k].1]
    ensures forall k | 0 <= k < |ms| :: PatternMatch(s, FindSpans(s, 0)[k].0, FindSpans(s, 0)[k].1)
  {
    var spans := FindSpans(s, 0);
    SpansMatch(s, 0);
    seq(|spans|, k requires 0 <= k < |spans| => s[spans[k].0..spans[k].1])
  }

  /** Every span the scan reports is a stretch the pattern matches. */
  lemma SpansMatch(s: string, p: nat)
    requires p <= |s|
    ensures forall k | 0 <= k < |FindSpans(s, p)| :: PatternMatch(s, FindSpans(s, p)[k].0, FindSpans(s, p)[k].1)
  {
    var spans := FindSpans(s, p);
    forall k | 0 <= k < |spans|
      ensures PatternMatch(s, spans[k].0, spans[k].1)
    {
      MatchAtGreedy(s, spans[k].0);
    }
  }

  /** Every position where a match starts lies inside a reported span: no match is missed. */
  lemma {:induction false} NoMatchMissed(s: string, p: nat, q: nat)
    requires p <= q < |s| && MatchAt(s, q).Some?
    ensures exists k | 0 <= k < |FindSpans(s, p)| :: FindSpans(s, p)[k].0 <= q < FindSpans(s, p)[k].1
    decreases |s| - p
  {
    var spans := FindSpans(s, p);
    match MatchAt(s, p)
    case Some(e) =>
      if q < e {
        assert spans[0] == (p, e);
      } else {
        NoMatchMissed(s, e, q);
        var k :| 0 <= k < |FindSpans(s, e)| && FindSpans(s, e)[k].0 <= q < FindSpans(s, e)[k].1;
        assert spans[k + 1] == FindSpans(s, e)[k];
      }
    case None =>
      NoMatchMissed(s, p + 1, q);
  }

  /** Wherever the pattern matches some stretch of the text, that position lies inside a reported span. */
  lemma MatchCovered(s: string, q: nat, e: nat)
    requires q < |s| && PatternMatch(s, q, e)
    ensures exists k | 0 <= k < |FindSpans(s, 0)| :: FindSpans(s, 0)[k].0 <= q < FindSpans(s, 0)[k].1
  {
    if MatchAt(s, q).None? {
      MatchAtComplete(s, q);
      assert false;
    }
    NoMatchMissed(s, 0, q);
  }
}
