/**
 * `SoapGeneratorAgent` (agents/soap_generator_agent.py): asks the model for a
 * SOAP note from the transcript. It has no guard: an exception propagates.
 */
module SoapAgent {
  import opened Wrappers
  import opened JsonValue
  import opened JsonDecode
  import opened Repair
  import opened PipelineState
  import opened Outcome

  /** `respond`'s inputs: the transcript ("" when absent) and one image, the placeholder when none was uploaded. */
  function SOAPPromptFor(entries: map<string, Value>): Prompt
  {
    SOAPPrompt(Get(entries, "transcript", Text("")), [Get(entries, "image", Picture(Placeholder))])
  }

  /** An absent transcript reaches the prompt as ""; an absent image as the one placeholder. */
  lemma SOAPPromptInputs(entries: map<string, Value>)
    ensures "transcript" !in entries ==> SOAPPromptFor(entries).transcript == Text("")
    ensures "transcript" in entries ==> SOAPPromptFor(entries).transcript == entries["transcript"]
    ensures |SOAPPromptFor(entries).images| == 1
    ensures "image" !in entries ==> SOAPPromptFor(entries).images == [Picture(Placeholder)]
    ensures "image" in entries ==> SOAPPromptFor(entries).images == [entries["image"]]
  {
  }

  class SoapGeneratorAgent {
    const generate: Generator

    constructor(generate: Generator)
      ensures this.generate == generate
    {
      this.generate := generate;
    }

    /** `respond`: the model is asked with the transcript, "" when absent, and one image, the placeholder when none was uploaded. */
    method Respond(state: State) returns (reply: Result<string, string>)
      ensures var entries := state.payload.entries;
        reply == generate(SOAPPrompt(
          if "transcript" in entries then entries["transcript"] else Text(""),
          [if "image" in entries then entries["image"] else Picture(Placeholder)]))
    {
      reply := generate(SOAPPromptFor(state.payload.entries));
    }

    /**
     * `run`: the input state is left alone. On success a new state of type
     * soap holds a copy of the payload, the repaired and parsed answer and no
     * error; an exception is passed on to the caller as `Failure`.
     */
    method Run(state: State) returns (r: Result<State, string>)
      ensures var outcome := TaskResult(generate(SOAPPromptFor(state.payload.entries)));
        outcome.Failure? ==> r == Failure(outcome.error)
      ensures var outcome := TaskResult(generate(SOAPPromptFor(state.payload.entries)));
        outcome.Success? ==>
          r.Success? && fresh(r.value) && fresh(r.value.payload)
          && r.value.Snap() == Snapshot(Some(SOAP), state.payload.entries, JsonResult(outcome.value), None)
    {
      var reply := Respond(state);
      if reply.Failure? {
        return Failure(reply.error);
      }
      var parsedResult := CleanJsonResponse(reply.value);
      RepairParses(reply.value);
      var cleanedResult := Parse(parsedResult).value;
      if !ResultAccepted(cleanedResult) {
        return Failure(LibraryError);
      }
      var next := new State(Some(SOAP), state.payload, JsonResult(cleanedResult), None);
      return Success(next);
    }
  }
}
