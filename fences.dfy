/**
 * Removal of markdown code fences from a model's reply:
 * `re.sub(r"^```json\s*|```$", "", text, flags=re.MULTILINE)`.
 * The scan goes left to right over the original text; at each position the
 * first alternative is tried first, a match is dropped and the scan resumes
 * after it, and otherwise one character is kept.
 */
module Fences {
  import opened PyText

  /** `^` under MULTILINE: the start of the text or just after a newline. */
  predicate LineStart(s: string, i: nat)
    requires i <= |s|
  {
    i == 0 || s[i - 1] == '\n'
  }

  predicate Backticks(s: string, i: nat)
  {
    i + 3 <= |s| && s[i] == '`' && s[i + 1] == '`' && s[i + 2] == '`'
  }

  /** The text at `i` reads `json`. */
  predicate JsonTag(s: string, i: nat)
  {
    i + 4 <= |s| && s[i] == 'j' && s[i + 1] == 's' && s[i + 2] == 'o' && s[i + 3] == 'n'
  }

  /** How much the first alternative `^```json\s*` matches at `i`; 0 when it does not match. */
  function OpenFenceLen(s: string, i: nat): nat
    requires i <= |s|
  {
    if LineStart(s, i) && Backticks(s, i) && JsonTag(s, i + 3) then 7 + SpaceRun(s, i + 7) else 0
  }

  /** The second alternative "```$" matches at `i`: three backticks ending the text or a line. */
  predicate CloseFenceAt(s: string, i: nat)
  {
    Backticks(s, i) && (i + 3 == |s| || s[i + 3] == '\n')
  }

  /** What the substitution leaves of `s[i..]`, the scan standing at `i`. */
  function StripFrom(s: string, i: nat): (r: string)
    requires i <= |s|
    decreases |s| - i
    ensures |r| <= |s| - i
  {
    if i == |s| then []
    else if OpenFenceLen(s, i) > 0 then StripFrom(s, i + OpenFenceLen(s, i))
    else if CloseFenceAt(s, i) then StripFrom(s, i + 3)
    else [s[i]] + StripFrom(s, i + 1)
  }

  function StripFences(s: string): (r: string)
    ensures |r| <= |s|
  {
    StripFrom(s, 0)
  }

  predicate NoBacktick(s: string)
  {
    forall k | 0 <= k < |s| :: s[k] != '`'
  }

  /** Where neither alternative matches, the character is kept and the scan moves on by one. */
  lemma KeepOne(s: string, i: nat)
    requires i < |s| && !(LineStart(s, i) && Backticks(s, i) && JsonTag(s, i + 3)) && !CloseFenceAt(s, i)
    ensures StripFrom(s, i) == [s[i]] + StripFrom(s, i + 1)
  {
    assert OpenFenceLen(s, i) == 0;
  }

  /** A character other than a backtick starts no fence: it is kept. */
  lemma KeepPlain(s: string, i: nat)
    requires i < |s| && s[i] != '`'
    ensures StripFrom(s, i) == [s[i]] + StripFrom(s, i + 1)
  {
    assert !Backticks(s, i);
    KeepOne(s, i);
  }

  /** A stretch without backticks is copied unchanged. */
  lemma {:induction false} CopyPlain(s: string, i: nat, j: nat)
    requires i <= j <= |s|
    requires forall k | i <= k < j :: s[k] != '`'
    ensures StripFrom(s, i) == s[i..j] + StripFrom(s, j)
    decreases j - i
  {
    if i < j {
      KeepPlain(s, i);
      CopyPlain(s, i + 1, j);
      var rest := StripFrom(s, j);
      assert s[i..j] == [s[i]] + s[i + 1..j];
      assert [s[i]] + (s[i + 1..j] + rest) == ([s[i]] + s[i + 1..j]) + rest;
    } else {
      assert s[i..j] + StripFrom(s, j) == StripFrom(s, j);
    }
  }

  /** Text with no backtick comes out unchanged. */
  lemma NoFenceUnchanged(s: string)
    requires NoBacktick(s)
    ensures StripFences(s) == s
  {
    CopyPlain(s, 0, |s|);
    assert s[0..|s|] == s;
  }

  /**
   * Three backticks followed by a tag other than `json` (or by `json` away
   * from the start of a line) are kept, so a fence such as "```python" stays in the text.
   */
  lemma TaggedFenceKept(s: string, i: nat)
    requires i + 4 <= |s| && Backticks(s, i)
    requires s[i + 3] != '\n' && s[i + 3] != '`'
    requires LineStart(s, i) ==> !JsonTag(s, i + 3)
    ensures StripFrom(s, i) == "```" + StripFrom(s, i + 3)
  {
    var rest := StripFrom(s, i + 3);
    assert !Backticks(s, i + 2) && !LineStart(s, i + 2);
    KeepOne(s, i + 2);
    assert StripFrom(s, i + 2) == "`" + rest;
    assert !Backticks(s, i + 1) && !LineStart(s, i + 1);
    KeepOne(s, i + 1);
    assert StripFrom(s, i + 1) == "``" + rest;
    assert !CloseFenceAt(s, i);
    KeepOne(s, i);
  }

  /**
   * A reply wrapped as "```json", whitespace, a body without backticks, then "```"
   * at the very end comes out as exactly the body.
   */
  lemma FencedBody(ws: string, body: string)
    requires AllSpace(ws) && NoBacktick(body)
    requires body == [] || !IsSpace(body[0])
    ensures StripFences("```json" + ws + body + "```") == body
  {
    var s := "```json" + ws + body + "```";
    var j := 7 + |ws|;
    var e := j + |body|;
    FencedText(ws, body);
    SpaceRunExact(s, 7, |ws|);
    assert OpenFenceLen(s, 0) == j;
    assert StripFrom(s, 0) == StripFrom(s, j);
    CopyPlain(s, j, e);
    EndFence(s);
    assert s[j..e] == body;
  }

  /** Where each part of a fenced reply sits in its text. */
  lemma FencedText(ws: string, body: string)
    ensures var s := "```json" + ws + body + "```";
      var j := 7 + |ws|;
      |s| == j + |body| + 3 && Backticks(s, 0) && JsonTag(s, 3)
      && (forall k | 7 <= k < j :: s[k] == ws[k - 7])
      && (forall k | j <= k < j + |body| :: s[k] == body[k - j])
      && s[j..j + |body|] == body
      && Backticks(s, |s| - 3)
  {
  }

  /** The scan's last step: three backticks at the very end of the text are dropped. */
  lemma EndFence(s: string)
    requires 3 <= |s| && Backticks(s, |s| - 3)
    ensures StripFrom(s, |s| - 3) == []
  {
  }

  /**
   * Before the closing backticks the scan of `t + "```"` makes the same
   * choices as the scan of `t` alone: no match reaches into the backticks.
   */
  lemma {:induction false} ClosedScan(t: string, i: nat)
    requires i <= |t| && (t == [] || t[|t| - 1] != '`')
    ensures StripFrom(t + "```", i) == StripFrom(t, i)
    decreases |t| - i
  {
    var s := t + "```";
    if i == |t| {
      EndFence(s);
    } else {
      StepAgrees(t, i);
      ClosedScan(t, Skip(t, i));
      SameStep(s, t, i);
    }
  }

  /** Where the scan resumes after standing at `i`. */
  function Skip(s: string, i: nat): (r: nat)
    requires i < |s|
    ensures i < r <= |s|
  {
    if OpenFenceLen(s, i) > 0 then i + OpenFenceLen(s, i) else if CloseFenceAt(s, i) then i + 3 else i + 1
  }

  /** What the scan keeps when standing at `i`: nothing at a match, else the character. */
  function Emit(s: string, i: nat): string
    requires i < |s|
  {
    if OpenFenceLen(s, i) > 0 || CloseFenceAt(s, i) then [] else [s[i]]
  }

  /** One step of the scan. */
  lemma Unfold(s: string, i: nat)
    requires i < |s|
    ensures StripFrom(s, i) == Emit(s, i) + StripFrom(s, Skip(s, i))
  {
    if OpenFenceLen(s, i) == 0 && !CloseFenceAt(s, i) {
      assert StripFrom(s, i) == [s[i]] + StripFrom(s, i + 1);
    } else {
      assert Emit(s, i) == [];
    }
  }

  /** Two texts whose scans decide alike at `i` and agree from where they resume agree from `i`. */
  lemma SameStep(s: string, t: string, i: nat)
    requires i < |t| <= |s| && s[i] == t[i]
    requires OpenFenceLen(s, i) == OpenFenceLen(t, i) && CloseFenceAt(s, i) == CloseFenceAt(t, i)
    requires StripFrom(s, Skip(t, i)) == StripFrom(t, Skip(t, i))
    ensures StripFrom(s, i) == StripFrom(t, i)
  {
    Unfold(s, i);
    Unfold(t, i);
    assert Skip(s, i) == Skip(t, i) && Emit(s, i) == Emit(t, i);
  }

  /** Inside `t`, both alternatives decide alike on `t` and on `t + "```"`. */
  lemma StepAgrees(t: string, i: nat)
    requires i < |t| && t[|t| - 1] != '`'
    ensures var s := t + "```";
      s[i] == t[i] && OpenFenceLen(s, i) == OpenFenceLen(t, i) && CloseFenceAt(s, i) == CloseFenceAt(t, i)
  {
    var s := t + "```";
    assert Backticks(s, i) == Backticks(t, i);
    assert JsonTag(s, i + 3) == JsonTag(t, i + 3);
    if LineStart(t, i) && Backticks(t, i) && JsonTag(t, i + 3) {
      var n := SpaceRun(t, i + 7);
      SpaceRunExact(s, i + 7, n);
    }
  }

  /**
   * Three backticks closing the reply are removed, and the rest of the reply
   * is stripped exactly as it would be without them.
   */
  lemma EndFenceRemoved(t: string)
    requires t == [] || t[|t| - 1] != '`'
    ensures StripFences(t + "```") == StripFences(t)
  {
    ClosedScan(t, 0);
  }
}
