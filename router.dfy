/**
 * `RouterAgent` (agents/router_agent.py): asks the model which task fits
 * the input, normalises its answer and looks it up in an exact-match table.
 * A known label sets the state's type and copies the note into the payload
 * key that task reads; any other answer sets the error and stops.
 */
module Router {
  import opened Wrappers
  import opened PyText
  import opened PipelineState

  /** `respond`'s inputs: the note (None when absent) and one image, the placeholder when none was uploaded. */
  function RouterPromptFor(entries: map<string, Value>): Prompt
  {
    RouterPrompt(Get(entries, "note", NoneValue), [Get(entries, "image", Picture(Placeholder))])
  }

  /** Without an uploaded image the router still passes exactly one image: the placeholder. */
  lemma RouterPromptImage(entries: map<string, Value>)
    ensures |RouterPromptFor(entries).images| == 1
    ensures "image" !in entries ==> RouterPromptFor(entries).images == [Picture(Placeholder)]
    ensures "image" in entries ==> RouterPromptFor(entries).images == [entries["image"]]
    ensures RouterPromptFor(entries).note == if "note" in entries then entries["note"] else NoneValue
  {
  }

  /** `.text.lower().strip()`: the model's answer as a label. */
  function NormalizeLabel(text: string): string
  {
    Strip(Lower(text))
  }

  /** The payload a task reads once the router has dispatched to it. */
  function Prepared(entries: map<string, Value>, t: Task): map<string, Value>
  {
    match t
    case ICD10 => entries["clinical_note" := Get(entries, "note", Text(""))]
    case SOAP => entries["transcript" := Get(entries, "note", Text(""))]
    case ImageAnalysis =>
      var withImage := entries["image" := Get(entries, "image", NoneValue)];
      withImage["clinical_note" := Get(entries, "note", Text(""))]
  }

  /** What `run` makes of a label: a task and the payload it then holds, or the unknown-label error. */
  datatype Routing = Dispatch(task: Task, entries: map<string, Value>) | Unknown(message: string)

  function Route(entries: map<string, Value>, name: string): Routing
  {
    match TaskOf(name)
    case Some(t) => Dispatch(t, Prepared(entries, t))
    case None => Unknown("Unknown response from RouterAgent: " + name)
  }

  /**
   * The router dispatches exactly on the three labels, each to its own task;
   * any other label is reported with the label in the message.
   */
  lemma RouteTable(entries: map<string, Value>, name: string)
    ensures Route(entries, name).Dispatch? <==> name in {"icd10", "soap", "image_analysis"}
    ensures Route(entries, name).Dispatch? ==> TaskName(Route(entries, name).task) == name
    ensures Route(entries, name).Unknown? ==>
      Route(entries, name).message == "Unknown response from RouterAgent: " + name
  {
  }

  /**
   * Dispatch only adds keys: none is removed, `note` is never changed, and
   * only the key the task reads (and `image`, for image analysis) is written.
   */
  lemma PreparedKeeps(entries: map<string, Value>, t: Task)
    ensures entries.Keys <= Prepared(entries, t).Keys
    ensures ("note" in Prepared(entries, t)) == ("note" in entries)
    ensures "note" in entries ==> Prepared(entries, t)["note"] == entries["note"]
    ensures forall k | k in entries && k !in {"clinical_note", "transcript", "image"} ::
      Prepared(entries, t)[k] == entries[k]
    ensures Prepared(entries, t).Keys <= entries.Keys + {"clinical_note", "transcript", "image"}
  {
  }

  /**
   * The key each task reads holds the note, or "" without one; for image
   * analysis `image` is present afterwards, None when no image was uploaded.
   */
  lemma PreparedFields(entries: map<string, Value>, t: Task)
    ensures t == ICD10 ==> Prepared(entries, t)["clinical_note"] == Get(entries, "note", Text(""))
    ensures t == SOAP ==> Prepared(entries, t)["transcript"] == Get(entries, "note", Text(""))
    ensures t == ImageAnalysis ==>
      Prepared(entries, t)["clinical_note"] == Get(entries, "note", Text(""))
      && Prepared(entries, t)["image"] == Get(entries, "image", NoneValue)
  {
  }

  /** Lower-casing keeps the length and leaves whitespace alone. */
  lemma {:induction false} LowerSplit(a: string, b: string)
    ensures Lower(a + b) == Lower(a) + Lower(b)
  {
    var l := Lower(a + b);
    assert |l| == |Lower(a) + Lower(b)|;
    forall k | 0 <= k < |l|
      ensures l[k] == (Lower(a) + Lower(b))[k]
    {
      if k < |a| {
        assert (a + b)[k] == a[k];
      } else {
        assert (a + b)[k] == b[k - |a|];
      }
    }
  }

  lemma SpacesLowered(s: string)
    requires AllSpace(s)
    ensures Lower(s) == s
  {
    assert forall k | 0 <= k < |s| :: IsSpace(s[k]) ==> !('A' <= s[k] <= 'Z');
  }

  /** Lower-casing padded text lower-cases the text between the padding and nothing else. */
  lemma LowerPadded(pre: string, answer: string, post: string)
    requires AllSpace(pre) && AllSpace(post)
    ensures Lower(pre + answer + post) == pre + Lower(answer) + post
  {
    LowerSplit(pre + answer, post);
    LowerSplit(pre, answer);
    SpacesLowered(pre);
    SpacesLowered(post);
  }

  /**
   * Case and surrounding whitespace in the model's answer do not matter: an
   * answer that lower-cases to a task's label, padded with whitespace, selects that task.
   */
  lemma LabelTolerant(pre: string, answer: string, post: string, t: Task)
    requires AllSpace(pre) && AllSpace(post)
    requires Lower(answer) == TaskName(t)
    ensures NormalizeLabel(pre + answer + post) == TaskName(t)
    ensures TaskOf(NormalizeLabel(pre + answer + post)) == Some(t)
  {
    LowerPadded(pre, answer, post);
    NameTrimmed(t);
    StripPadded(pre, TaskName(t), post);
    TaskNames(t, TaskName(t));
  }

  /** No label starts or ends with whitespace. */
  lemma NameTrimmed(t: Task)
    ensures TaskName(t) != [] && !IsSpace(TaskName(t)[0]) && !IsSpace(TaskName(t)[|TaskName(t)| - 1])
  {
  }

  /** `RouterAgent`: its model is fixed when it is built. */
  class RouterAgent {
    const generate: Generator

    constructor(generate: Generator)
      ensures this.generate == generate
    {
      this.generate := generate;
    }

    /** `respond`: the model is asked with the note, None when absent, and one image, the placeholder when none was uploaded. */
    method Respond(state: State) returns (reply: Result<string, string>)
      ensures var entries := state.payload.entries;
        reply == generate(RouterPrompt(
          if "note" in entries then entries["note"] else NoneValue,
          [if "image" in entries then entries["image"] else Picture(Placeholder)]))
    {
      reply := generate(RouterPromptFor(state.payload.entries));
    }

    /**
     * The part of `run` after the answer is normalised: the exact-match chain
     * on the label. A known label updates the payload and the type in place
     * and yields a new state holding a copy of the payload, with the label as result
     * and no error; any other label sets the error and yields the same state.
     */
    method ApplyLabel(state: State, response: string) returns (r: State)
      modifies state, state.payload
      ensures state.payload == old(state.payload)
      ensures Route(old(state.payload.entries), response).Unknown? ==>
        r == state
        && state.Snap() == old(state.Snap()).(error := Some(Route(old(state.payload.entries), response).message))
      ensures Route(old(state.payload.entries), response).Dispatch? ==>
        var routed := Route(old(state.payload.entries), response);
        && state.Snap() == old(state.Snap()).(kind := Some(routed.task), entries := routed.entries)
        && fresh(r) && fresh(r.payload)
        && r.Snap() == Snapshot(Some(routed.task), routed.entries, LabelText(response), None)
    {
      var entries := state.payload.entries;
      if response == "icd10" {
        state.payload.Set("clinical_note", Get(entries, "note", Text("")));
        state.kind := Some(ICD10);
      } else if response == "soap" {
        state.payload.Set("transcript", Get(entries, "note", Text("")));
        state.kind := Some(SOAP);
      } else if response == "image_analysis" {
        state.kind := Some(ImageAnalysis);
        state.payload.Set("image", Get(entries, "image", NoneValue));
        state.payload.Set("clinical_note", Get(state.payload.entries, "note", Text("")));
      } else {
        state.error := Some("Unknown response from RouterAgent: " + response);
        return state;
      }
      r := new State(state.kind, state.payload, LabelText(response), None);
    }

    /**
     * `run`: asks the model, normalises its answer and applies it. An
     * exception from the model propagates and nothing has changed.
     */
    method Run(state: State) returns (r: Result<State, string>)
      modifies state, state.payload
      ensures state.payload == old(state.payload)
      ensures var reply := generate(RouterPromptFor(old(state.payload.entries)));
        reply.Failure? ==> r == Failure(reply.error) && state.Snap() == old(state.Snap())
      ensures var reply := generate(RouterPromptFor(old(state.payload.entries)));
        reply.Success? && Route(old(state.payload.entries), NormalizeLabel(reply.value)).Unknown? ==>
          r == Success(state)
          && state.Snap() == old(state.Snap()).(error :=
              Some(Route(old(state.payload.entries), NormalizeLabel(reply.value)).message))
      ensures var reply := generate(RouterPromptFor(old(state.payload.entries)));
        reply.Success? && Route(old(state.payload.entries), NormalizeLabel(reply.value)).Dispatch? ==>
          var routed := Route(old(state.payload.entries), NormalizeLabel(reply.value));
          && state.Snap() == old(state.Snap()).(kind := Some(routed.task), entries := routed.entries)
          && r.Success? && fresh(r.value) && fresh(r.value.payload)
          && r.value.Snap() == Snapshot(Some(routed.task), routed.entries, LabelText(NormalizeLabel(reply.value)), None)
    {
      var reply := Respond(state);
      if reply.Failure? {
        return Failure(reply.error);
      }
      var next := ApplyLabel(state, NormalizeLabel(reply.value));
      return Success(next);
    }
  }
}
