/**
 * `ImageAnalyzerAgent` (agents/image_analyzer_agent.py): asks the model for a
 * radiology report on the uploaded image, with the note as the user's
 * question. No placeholder stands in for a missing image, and there is no
 * guard: an exception propagates.
 */
module ImageAgent {
  import opened Wrappers
  import opened JsonValue
  import opened JsonDecode
  import opened Repair
  import opened PipelineState
  import opened Outcome

  /** `respond`'s inputs: `image` and `note`, each None when absent. */
  function ImagePromptFor(entries: map<string, Value>): Prompt
  {
    ImagePrompt(Get(entries, "image", NoneValue), Get(entries, "note", NoneValue))
  }

  /**
   * The image is passed as it is, None when absent, never the placeholder;
   * the question is the original `note`, whatever `clinical_note` holds.
   */
  lemma ImagePromptInputs(entries: map<string, Value>, clinicalNote: Value)
    ensures "image" !in entries ==> ImagePromptFor(entries).image == NoneValue
    ensures "image" in entries ==> ImagePromptFor(entries).image == entries["image"]
    ensures "note" !in entries ==> ImagePromptFor(entries).question == NoneValue
    ensures "note" in entries ==> ImagePromptFor(entries).question == entries["note"]
    ensures ImagePromptFor(entries["clinical_note" := clinicalNote]) == ImagePromptFor(entries)
  {
    assert "clinical_note" != "image" && "clinical_note" != "note";
  }

  class ImageAnalyzerAgent {
    const generate: Generator

    constructor(generate: Generator)
      ensures this.generate == generate
    {
      this.generate := generate;
    }

    /** `respond`: the model is asked with the image and the note, each None when absent; no placeholder stands in. */
    method Respond(state: State) returns (reply: Result<string, string>)
      ensures var entries := state.payload.entries;
        reply == generate(ImagePrompt(
          if "image" in entries then entries["image"] else NoneValue,
          if "note" in entries then entries["note"] else NoneValue))
    {
      reply := generate(ImagePromptFor(state.payload.entries));
    }

    /**
     * `run`: the input state is left alone. On success a new state of type
     * image_analysis holds a copy of the payload, the repaired and parsed answer
     * and no error; an exception is passed on to the caller as `Failure`.
     */
    method Run(state: State) returns (r: Result<State, string>)
      ensures var outcome := TaskResult(generate(ImagePromptFor(state.payload.entries)));
        outcome.Failure? ==> r == Failure(outcome.error)
      ensures var outcome := TaskResult(generate(ImagePromptFor(state.payload.entries)));
        outcome.Success? ==>
          r.Success? && fresh(r.value) && fresh(r.value.payload)
          && r.value.Snap() == Snapshot(Some(ImageAnalysis), state.payload.entries, JsonResult(outcome.value), None)
    {
      var reply := Respond(state);
      if reply.Failure? {
        return Failure(reply.error);
      }
      var parsedResult := CleanJsonResponse(reply.value);
      RepairParses(reply.value);
      var cleanedResult := Parse(parsedResult).value;
      if !ResultAccepted(cleanedResult) {
        return Failure(LibraryError);
      }
      var next := new State(Some(ImageAnalysis), state.payload, JsonResult(cleanedResult), None);
      return Success(next);
    }
  }
}
