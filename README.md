# Clinical coding pipeline: a Dafny model

This project models the decision logic of an AI clinical-coding service.
The service accepts a free-text clinical note and/or a medical image on
`POST /analyze`. A router model classifies the request as `icd10`, `soap` or
`image_analysis`. The matching agent asks a vision-language model for JSON,
repairs that JSON with `clean_json_response`, and stores the result in a
shared `State`. The endpoint turns the final state into one of the response
models of `app/api/schemas.py`.

The model covers these parts of the service:

- **The JSON repair routine** `clean_json_response` (modules `Repair`,
  `Fences`, `CodePattern`, `PyText`):
  - quote replacement;
  - the multiline fence regex;
  - the strict parse;
  - the `description` filter on lists and on list-valued fields of a dict;
  - the regular-expression fallback that recovers flat `{"code": ..., "description": ...}` objects.
- **Python's `json` module**, to the extent the routine relies on it
  (`JsonValue`, `JsonDecode`, `JsonEncode`, `JsonRoundTrip`):
  - a parser and a serialiser with `ensure_ascii` escaping;
  - a proof that serialising and then parsing gives back the value.
- **The router agent** (`Router`):
  - the prompt inputs and the label normalisation (lower-case, then strip);
  - the three-way dispatch and the payload keys each branch adds;
  - the unknown-label error.
- **The three task agents** (`Icd10Agent`, `SoapAgent`, `ImageAgent`):
  - their prompt inputs and their defaults;
  - the state each one returns;
  - the ICD-10 agent's exception guard.
- **The graph** (`Graph`):
  - the transition table `build_graph` builds;
  - the path a run takes;
  - a `Pipeline` class that owns one instance of each agent and runs `invoke`.
- **The endpoint** (`Analyze`):
  - input rejection and the initial payload;
  - the error-first / type-dispatch response selection;
  - the defaults used to build the response models.

Model generation is a parameter: `Generator = Prompt -> Result<string, string>`.
A `Failure` stands for an exception raised by inference. `State` and its
payload dict are classes (`PipelineState.State`, `PipelineState.Payload`):
the router updates the incoming state and its payload in place, and every
`State(...)` built by an agent holds a fresh copy of the payload it is given,
as validating the `payload: dict` field does. `Snapshot` is a state's value view.

## Model

| member | source | states |
|---|---|---|
| Repair.ReplaceQuotes | app/utils/helper.py:20 | every `'` becomes `"`, every other character and the length are kept |
| Repair.NormalizedNoSingleQuote | app/utils/helper.py:20-22 | after quote replacement and fence stripping the text holds no single quote |
| Fences.NoFenceUnchanged | app/utils/helper.py:22 | text without a backtick passes through fence stripping unchanged |
| Fences.TaggedFenceKept | app/utils/helper.py:22 | three backticks followed by a tag other than `json` (or not at a line start) are kept |
| Fences.FencedBody | app/utils/helper.py:22 | "```json" plus whitespace, a body, and "```" at the end strip to exactly the body |
| Fences.EndFenceRemoved | app/utils/helper.py:22 | three backticks closing the text are removed, and the text before them is stripped exactly as it would be without them |
| PyText.StripSlice | app/utils/helper.py:22 | `str.strip` returns a slice of its input with only whitespace cut on either side |
| PyText.StripIdempotent | app/utils/helper.py:22 | stripping twice is stripping once |
| PyText.StripPadded | agents/router_agent.py:44 | a trimmed text padded with whitespace strips back to itself |
| Repair.FilterDescribed | app/utils/helper.py:28 | the filter fails exactly when an element is not a dict; otherwise every kept entry has a truthy description |
| Repair.FilterAppend | app/utils/helper.py:28 | the filter distributes over concatenation, so kept entries stay in their original order |
| Repair.FilterMembers | app/utils/helper.py:28 | an entry is kept exactly when it is in the input and its `description` is truthy |
| Repair.FilteredMembers | app/utils/helper.py:30-33 | the per-field filter fails exactly when some list field fails; otherwise keys are kept in order and each value is filtered |
| Repair.FilterListFields | app/utils/helper.py:31-33 | the loop that reassigns `data[key]` for each list-valued field computes the per-field filter |
| Repair.RepairList | app/utils/helper.py:27-28 | a parsed list of dicts comes out as exactly its entries with a truthy description |
| Repair.RepairDict | app/utils/helper.py:30-33 | a parsed dict keeps its keys and non-list values; each list-valued field is filtered |
| Repair.RepairScalar | app/utils/helper.py:24-35 | a parsed string, number, boolean or null is returned unchanged and re-serialises to the same value |
| Repair.NonDictDiverts | app/utils/helper.py:27-36 | a non-dict element in a top-level list raises, so the result is the fallback list |
| Repair.NonDictFieldDiverts | app/utils/helper.py:30-36 | a non-dict element in a list-valued field raises, so the result is the fallback list |
| Repair.RecoveredAppend | app/utils/helper.py:41-48 | recovery distributes over concatenation: objects are kept in match order |
| Repair.RecoverObjects | app/utils/helper.py:41-48 | the recovery loop collects each match that parses and has a truthy description |
| Repair.RepairFallback | app/utils/helper.py:40-50 | when the strict parse fails the result is the list of recovered objects, all described; with no match it is the empty list, written `[]` |
| Repair.RepairValueWellFormed | app/utils/helper.py:23-50 | the repaired value never holds a duplicate key |
| Repair.RepairParses | app/utils/helper.py:18-50 | the routine's output always parses as JSON, and parses back to the repaired value |
| Repair.CleanJsonResponse | app/utils/helper.py:18-50 | the method computes the repaired text for every input (no error path) |
| CodePattern.GreedyIsMatch | app/utils/helper.py:40 | on the pattern's tail, whose `\s*` and `[^"]*` runs are each followed by a character they cannot take, the greedy scan ends exactly where a match by the regex semantics (`TokensMatch`, any run length) ends |
| CodePattern.MatchAtGreedy | app/utils/helper.py:40 | a match the engine finds at a position is a match of the pattern by the regex semantics, and `[^{}]*` took the longest stretch with which the rest matches |
| CodePattern.MatchAtComplete | app/utils/helper.py:40 | when the engine finds no match at a position, no stretch there matches the pattern by the regex semantics |
| CodePattern.FindSpans | app/utils/helper.py:40 | `re.findall` spans are engine matches, in text order, and do not overlap |
| CodePattern.NoMatchMissed | app/utils/helper.py:40 | every position where the engine matches lies inside some reported span |
| CodePattern.MatchCovered | app/utils/helper.py:40 | every position where the pattern matches by the regex semantics lies inside some reported span |
| CodePattern.FindAll | app/utils/helper.py:40 | each returned string is the text of a reported span, in text order, and each such span is matched by the pattern under the regex semantics |
| JsonValue.Put | app/utils/helper.py:33 | assigning `data[key]` sets that key, leaves the others, and appends a new key at the end |
| JsonValue.PutAt | app/utils/helper.py:33 | reassigning an existing key replaces its value in place, keeping the key order |
| JsonRoundTrip.EscapeRoundTrip | app/utils/helper.py:35-50 | an `ensure_ascii`-escaped string parses back to itself |
| JsonRoundTrip.IntRoundTrip | app/utils/helper.py:35-50 | an integer's decimal text parses back to that integer |
| JsonRoundTrip.ParseSerialize | app/utils/helper.py:35-50 | `json.loads(json.dumps(v)) == v` for every value without duplicate keys |
| Router.RouterPromptImage | agents/router_agent.py:25-26 | the router sends one image: the uploaded one, or the placeholder when absent; the note is `None` when absent |
| Router.LabelTolerant | agents/router_agent.py:44 | a label in any letter case, padded with whitespace, normalises to the task name |
| Router.RouteTable | agents/router_agent.py:47-60 | dispatch happens exactly for `icd10`, `soap` and `image_analysis`; any other label gives "Unknown response from RouterAgent: " + label |
| Router.PreparedFields | agents/router_agent.py:47-56 | `clinical_note` / `transcript` is set to `note` or `""`, and for image analysis `image` is set to itself or `None` |
| Router.PreparedKeeps | agents/router_agent.py:47-56 | no payload key is removed, `note` is never changed, and only the three derived keys may be added or changed |
| Router.RouterAgent.Respond | agents/router_agent.py:23-35 | the model is asked with the note, `None` when absent, and one image, the placeholder when none was uploaded |
| Router.RouterAgent.ApplyLabel | agents/router_agent.py:47-66 | an unknown label sets the error on the same state object; a known one updates the state and its payload in place and returns a fresh state, holding a copy of the payload, with the label as result and no error |
| Router.RouterAgent.Run | agents/router_agent.py:38-66 | a generation failure propagates and leaves the state untouched; otherwise the label is normalised and applied |
| PipelineState.TaskNames | app/graph/types.py:20 | the three type literals and the tasks correspond one to one |
| PipelineState.Payload.Set | agents/router_agent.py:48 | assigning a payload key updates that key only |
| Graph.BuildGraph | graph/graph_builder.py:10-30 | the built graph has the four nodes, and its transitions are exactly the intended table |
| Graph.RouterTable | graph/graph_builder.py:20-24 | after the router, a task node follows exactly when the type is set, and it is the node of that type |
| Graph.WalkRanks | graph/graph_builder.py:18-28 | each step of a run moves one stage forward |
| Graph.NoNodeTwice | graph/graph_builder.py:18-28 | no node is visited twice in one run |
| Graph.Runs | graph/graph_builder.py:18-28 | a run is START, router, the task node, END; with no type it stops after the router |
| Graph.UnknownLabelStops | agents/router_agent.py:57-60 | an unknown label ends the run with the router's state, the error set |
| Graph.KnownLabelDispatches | graph/graph_builder.py:20-24 | a known label runs the task node on the routed state |
| Graph.RouterFailureEscapes | agents/router_agent.py:44 | an exception from the router's model escapes `invoke` |
| Graph.TerminalStates | app/agents/icd10_agent.py:52-56 | a run ends with a typed JSON result, an unknown-label error, or the ICD-10 partial over the router's state; an escaped exception needs `soap` or `image_analysis` |
| Graph.Pipeline.constructor | graph/graph_builder.py:13-16 | the pipeline is built once, with one agent of each kind sharing the model |
| Graph.Pipeline.RunTask | graph/graph_builder.py:20-28 | the conditional edge runs the task node of the state's type, or nothing when it is unset |
| Graph.Pipeline.Invoke | graph/graph_builder.py:18-30 | `invoke` computes the expected final state or escaped exception |
| Icd10Agent.ICD10PromptInputs | app/agents/icd10_agent.py:26-27 | the clinical note defaults to `None`; the image list is the upload or the placeholder |
| Icd10Agent.ICD10Agent.Respond | app/agents/icd10_agent.py:23-34 | the model is asked with the clinical note, `None` when absent, and one image, the placeholder when none was uploaded |
| Icd10Agent.ICD10Agent.Run | app/agents/icd10_agent.py:37-56 | success gives a fresh `icd10` state, holding a copy of the payload, with the repaired result and no error; any failure gives the partial holding only the payload and the error |
| Outcome.TaskResultParses | app/agents/icd10_agent.py:40-43 | repair output always parses; only generation or the result-type check can fail |
| Outcome.FallbackIsList | agents/soap_generator_agent.py:44-45 | when the strict parse fails the result is the fallback list, not the four-field object |
| SoapAgent.SOAPPromptInputs | agents/soap_generator_agent.py:26-27 | the transcript defaults to `""`; the image list is the upload or the placeholder |
| SoapAgent.SoapGeneratorAgent.Respond | agents/soap_generator_agent.py:22-33 | the model is asked with the transcript, `""` when absent, and one image, the placeholder when none was uploaded |
| SoapAgent.SoapGeneratorAgent.Run | agents/soap_generator_agent.py:35-53 | success gives a fresh `soap` state, holding a copy of the payload, with the repaired result; a failure propagates |
| ImageAgent.ImagePromptInputs | agents/image_analyzer_agent.py:23-26 | the image defaults to `None` (no placeholder); the question is `note`, and `clinical_note` plays no part |
| ImageAgent.ImageAnalyzerAgent.Respond | agents/image_analyzer_agent.py:21-30 | the model is asked with the image and the note, each `None` when absent; no placeholder stands in |
| ImageAgent.ImageAnalyzerAgent.Run | agents/image_analyzer_agent.py:32-49 | success gives a fresh `image_analysis` state, holding a copy of the payload, with the repaired result; a failure propagates |
| Analyze.RejectedIff | app/api/analyze.py:28-29 | the request is refused with "No input provided." exactly when there is neither a truthy note nor an image |
| Analyze.InitialPayload | app/api/analyze.py:33-42 | the payload holds `note` exactly when it is truthy and `image` exactly when the upload has a filename; a decoding failure is the only error |
| Analyze.ErrorFirst | app/api/analyze.py:57-58 | a truthy error wins over the type |
| Analyze.UnknownType | app/api/analyze.py:49-88 | an unset type gives "Unknown analysis type."; an output that is neither dict nor State gives "Unexpected output type from graph." |
| Analyze.ICD10Codes | app/api/analyze.py:60-64 | a list of code records becomes the same number of codes with the same fields |
| Analyze.SOAPDefaults | app/api/analyze.py:66-74 | a missing SOAP section becomes `""`; a present one is copied; a non-string one is refused |
| Analyze.ImageRawResult | app/api/analyze.py:76-85 | the response is accepted exactly when the raw result holds the four report sections as strings, and carries them |
| Analyze.ImageDefaultsDiscarded | app/api/analyze.py:78-85 | when any of the four sections is missing or not a string the request is refused, although the discarded report was built with `""` in its place |
| Analyze.RouterFailureAnswered | app/api/analyze.py:90-91 | an exception from the router's model becomes an error response with its text |
| Analyze.UnknownLabelAnswered | app/api/analyze.py:57-58 | an unknown label is answered with "Unknown response from RouterAgent: " + label |
| Analyze.ICD10FailureAnswered | app/api/analyze.py:57-58 | an ICD-10 agent failure is answered with its error text |
| Analyze.AnalyzeRequest | app/api/analyze.py:26-91 | the endpoint answers every request as the response specification says |

## Left out

- Model inference (`generate`, `apply_chat_template`, model loading) is not modelled; it is the `Generator` parameter. Logging, `@traceable` and `print` are left out too.
- Prompt templates are not modelled. A prompt records only the arguments the agents pass to the builder.
- `convert_uploadfile_to_image` is not modelled. An upload carries its decoded picture or the decoder's exception text.
- app/main.py (FastAPI wiring, static files, the tracing client) is not modelled, and neither is concurrency between requests.
- The LangGraph runtime is not modelled beyond the table `build_graph` builds. The output of `invoke` is taken to be the last node's state.
  - A partial mapping returned by the ICD-10 agent is merged over the router's state: the type stays `icd10` and the result stays the label.
  - When the router leaves the type unset, the run is taken to stop after the router and return its state. The library's handling of a missing branch key is not modelled; most likely it looks `None` up in the branch table, raises `KeyError`, and the endpoint answers with that exception's text instead.
- Graph.UnknownLabelStops: holds under the stop-after-router reading above, not under the probable `KeyError`.
- Analyze.UnknownLabelAnswered: the "Unknown response from RouterAgent: " answer holds under the stop-after-router reading above; with the probable `KeyError` the answer would carry that exception's text.
- pydantic is modelled only through the declared type of `State.result`, the copy it makes of `payload`, and the response schemas (strict strings, no coercion). A validation or attribute error surfaces as the fixed text `LibraryError`; its real wording is not modelled.
- PyText.Lower: only ASCII letters are lower-cased; Python's full Unicode case mapping is not modelled.
- Python's `\s` and `str.strip()` are modelled with the `str.isspace` character set.
- JSON numbers are integers only: a fraction or an exponent fails to parse and takes the fallback path, where Python would read a float. `NaN` and `Infinity` are not accepted.
- A lone surrogate `\u` escape fails to parse, because a Dafny `char` cannot hold a surrogate; Python would keep it.
- A JSON object with a duplicate key keeps the last value at the first key's position, as a dict does. The round-trip lemma is stated for values without duplicate keys, which is all the parser produces.
- Where the code and its design description differ, the model follows the code:
  - only "```json" fences at a line start, and backticks at a line end, are stripped;
  - a non-dict element inside a filtered list diverts the whole input to the fallback;
  - the image agent substitutes no placeholder;
  - SOAP and image-analysis exceptions propagate out of `invoke`;
  - the ICD-10 failure keeps the router's label as the result;
  - the image-analysis response needs the four report sections, because the raw result is validated as a `RadiologyReport`.
