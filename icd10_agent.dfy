/**
 * `ICD10Agent` (app/agents/icd10_agent.py): asks the model for ICD-10 codes
 * for the clinical note. It is the one agent that catches failures: it then
 * returns a partial update holding only the payload and the error.
 */
module Icd10Agent {
  import opened Wrappers
  import opened JsonValue
  import opened JsonDecode
  import opened Repair
  import opened PipelineState
  import opened Outcome

  /** `respond`'s inputs: the clinical note (None when absent) and one image, the placeholder when none was uploaded. */
  function ICD10PromptFor(entries: map<string, Value>): Prompt
  {
    ICD10Prompt(Get(entries, "clinical_note", NoneValue), [Get(entries, "image", Picture(Placeholder))])
  }

  /** An absent clinical note reaches the prompt as None; an absent image as the one placeholder. */
  lemma ICD10PromptInputs(entries: map<string, Value>)
    ensures "clinical_note" !in entries ==> ICD10PromptFor(entries).clinicalNote == NoneValue
    ensures "clinical_note" in entries ==> ICD10PromptFor(entries).clinicalNote == entries["clinical_note"]
    ensures |ICD10PromptFor(entries).images| == 1
    ensures "image" !in entries ==> ICD10PromptFor(entries).images == [Picture(Placeholder)]
    ensures "image" in entries ==> ICD10PromptFor(entries).images == [entries["image"]]
  {
  }

  /** What a node returns: a whole state, or the `{"payload": ..., "error": ...}` mapping of the failure branch. */
  datatype NodeResult = Whole(state: State) | Partial(payload: Payload, error: string)

  class ICD10Agent {
    const generate: Generator

    constructor(generate: Generator)
      ensures this.generate == generate
    {
      this.generate := generate;
    }

    /** `respond`: the model is asked with the clinical note, None when absent, and one image, the placeholder when none was uploaded. */
    method Respond(state: State) returns (reply: Result<string, string>)
      ensures var entries := state.payload.entries;
        reply == generate(ICD10Prompt(
          if "clinical_note" in entries then entries["clinical_note"] else NoneValue,
          [if "image" in entries then entries["image"] else Picture(Placeholder)]))
    {
      reply := generate(ICD10PromptFor(state.payload.entries));
    }

    /**
     * `run`: the input state is left alone. On success a new state of type
     * icd10 holds a copy of the payload, the repaired and parsed answer and no
     * error; any exception yields the payload and the exception's text only.
     */
    method Run(state: State) returns (r: NodeResult)
      ensures var outcome := TaskResult(generate(ICD10PromptFor(state.payload.entries)));
        outcome.Failure? ==> r == Partial(state.payload, outcome.error)
      ensures var outcome := TaskResult(generate(ICD10PromptFor(state.payload.entries)));
        outcome.Success? ==>
          r.Whole? && fresh(r.state) && fresh(r.state.payload)
          && r.state.Snap() == Snapshot(Some(ICD10), state.payload.entries, JsonResult(outcome.value), None)
    {
      var reply := Respond(state);
      if reply.Failure? {
        return Partial(state.payload, reply.error);
      }
      var parsedResult := CleanJsonResponse(reply.value);
      RepairParses(reply.value);
      var cleanedResult := Parse(parsedResult).value;
      if !ResultAccepted(cleanedResult) {
        return Partial(state.payload, LibraryError);
      }
      var next := new State(Some(ICD10), state.payload, JsonResult(cleanedResult), None);
      return Whole(next);
    }
  }
}
