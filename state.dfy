/**
 * The state that flows through the pipeline (`State` in app/graph/types.py):
 * the task type, a payload dictionary, the result and the error; and the model the
 * agents call, which is a parameter of the model.
 */
module PipelineState {
  import opened Wrappers
  import opened JsonValue

  /** The three values `State.type` can take besides None. */
  datatype Task = ICD10 | SOAP | ImageAnalysis

  /** The label of a task as the router and `State.type` spell it. */
  function TaskName(t: Task): string
  {
    match t
    case ICD10 => "icd10"
    case SOAP => "soap"
    case ImageAnalysis => "image_analysis"
  }

  /** The exact-match table from a label to its task. */
  function TaskOf(name: string): (r: Option<Task>)
    ensures r.Some? ==> TaskName(r.value) == name
  {
    if name == "icd10" then Some(ICD10)
    else if name == "soap" then Some(SOAP)
    else if name == "image_analysis" then Some(ImageAnalysis)
    else None
  }

  /** Every task's label is recognised as that task, and only its own label is. */
  lemma TaskNames(t: Task, name: string)
    ensures TaskOf(TaskName(t)) == Some(t)
    ensures TaskOf(name) == Some(t) <==> name == TaskName(t)
  {
  }

  /** An image handed to the model: an uploaded picture, or the blank 224x224 placeholder. */
  datatype Image = Placeholder | Uploaded(id: nat)

  /** A value stored in the payload: text, an image, or Python's None. */
  datatype Value = Text(s: string) | Picture(img: Image) | NoneValue

  /** `State.result`: None, the router's label, or the value a task agent parsed. */
  datatype Output = NoOutput | LabelText(text: string) | JsonResult(value: Json)

  /** The prompt each agent builds; the templates themselves are not part of this model. */
  datatype Prompt =
    | RouterPrompt(note: Value, images: seq<Value>)
    | ICD10Prompt(clinicalNote: Value, images: seq<Value>)
    | SOAPPrompt(transcript: Value, images: seq<Value>)
    | ImagePrompt(image: Value, question: Value)

  /** The vision-language model: the text it generates for a prompt, or the message of the exception it raises. */
  type Generator = Prompt -> Result<string, string>

  /** `payload.get(key, default)`. */
  function Get(entries: map<string, Value>, key: string, default: Value): Value
  {
    if key in entries then entries[key] else default
  }

  /** The payload dictionary, updated in place by the router. */
  class Payload {
    var entries: map<string, Value>

    constructor()
      ensures entries == map[]
    {
      entries := map[];
    }

    /** A new dictionary holding the same entries. */
    constructor Copy(entries: map<string, Value>)
      ensures this.entries == entries
    {
      this.entries := entries;
    }

    /** `payload[key] = v`. */
    method Set(key: string, v: Value)
      modifies this
      ensures entries == old(entries)[key := v]
    {
      entries := entries[key := v];
    }
  }

  /**
   * The text of an exception raised inside a library (a pydantic validation
   * error, an attribute missing on a value); the wording itself is not modelled.
   */
  const LibraryError: string := "exception raised by a library call"

  /** A dict `ICD10Code(code=..., description=...)` accepts: both fields strings. */
  predicate CodeRecord(j: Json)
  {
    j.Obj? && StrField(j.members, "code") && StrField(j.members, "description")
  }

  /** The dict holds a string under `key`. */
  predicate StrField(ms: seq<(string, Json)>, key: string)
  {
    Lookup(ms, key).Some? && Lookup(ms, key).value.Str?
  }

  /**
   * The values the declared type of `State.result`,
   * `Optional[Union[str, List[ICD10Code], dict]]`, accepts: None, a string,
   * a dict, or a list of ICD-10 records. Numbers and booleans are refused.
   */
  predicate ResultAccepted(j: Json)
  {
    match j
    case Null => true
    case Str(_) => true
    case Obj(_) => true
    case Arr(items) => forall k | 0 <= k < |items| :: CodeRecord(items[k])
    case _ => false
  }

  /** The fields of a state, as values. */
  datatype Snapshot = Snapshot(kind: Option<Task>, entries: map<string, Value>, result: Output, error: Option<string>)

  /**
   * `State(type=..., payload=..., result=..., error=...)`. Validating the
   * `payload: dict` field copies the dictionary it is given.
   */
  class State {
    var kind: Option<Task>
    var payload: Payload
    var result: Output
    var error: Option<string>

    constructor(kind: Option<Task>, payload: Payload, result: Output, error: Option<string>)
      ensures this.kind == kind && this.result == result && this.error == error
      ensures fresh(this.payload) && this.payload.entries == payload.entries
    {
      this.kind := kind;
      this.payload := new Payload.Copy(payload.entries);
      this.result := result;
      this.error := error;
    }

    function Snap(): Snapshot
      reads this, payload
    {
      Snapshot(kind, payload.entries, result, error)
    }
  }
}
