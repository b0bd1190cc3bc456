/**
 * The `/analyze` endpoint (app/api/analyze.py): rejects a request with
 * neither note nor image, builds the initial state, runs the pipeline and
 * turns its final state into one of the response models of app/api/schemas.py.
 */
module Analyze {
  import opened Wrappers
  import opened JsonValue
  import opened PipelineState
  import opened Router
  import opened Graph
  import opened Outcome
  import opened Icd10Agent

  /** An uploaded file: its name, and the picture it decodes to or the decoder's exception. */
  datatype Upload = Upload(filename: string, decoded: Result<nat, string>)

  /** `ICD10Code`, `SOAPNote` and `RadiologyReport`. */
  datatype ICD10Code = ICD10Code(code: string, description: string)
  datatype SOAPNote = SOAPNote(subjective: string, objective: string, assessment: string, plan: string)
  datatype RadiologyReport = RadiologyReport(
    technique: string, findings: string, impression: string, recommendations: string,
    answerToUserQuestion: Option<string>)

  /** What the endpoint answers: the 400 reply or one of the four response models. */
  datatype Response =
    | BadRequest(message: string)
    | ICD10Response(codes: seq<ICD10Code>)
    | SOAPResponse(note: SOAPNote)
    | ImageAnalysisResponse(report: RadiologyReport)
    | ErrorResponse(error: string)

  /** What `graph.invoke` may hand back: a mapping of the state's fields, a `State`, or anything else. */
  datatype GraphOutput = AsMapping(fields: Snapshot) | AsState(state: Snapshot) | OtherOutput

  /** `note` is truthy: given and not empty. */
  predicate NoteGiven(note: Option<string>)
  {
    note.Some? && note.value != ""
  }

  /** The payload before the graph runs: `note` when truthy, `image` when the upload has a file name. */
  function InitialEntries(note: Option<string>, upload: Option<Upload>): Result<map<string, Value>, string>
  {
    var withNote := if NoteGiven(note) then map["note" := Text(note.value)] else map[];
    if upload.Some? && upload.value.filename != "" then
      match upload.value.decoded
      case Success(id) => Success(withNote["image" := Picture(Uploaded(id))])
      case Failure(e) => Failure(e)
    else Success(withNote)
  }

  /** `State.result` as the Python value the endpoint reads. */
  function ResultValue(o: Output): Json
  {
    match o
    case NoOutput => Null
    case LabelText(text) => Str(text)
    case JsonResult(v) => v
  }

  /** The record of a dict `ICD10Code` accepts. */
  function CodeOf(j: Json): ICD10Code
    requires CodeRecord(j)
  {
    ICD10Code(Lookup(j.members, "code").value.s, Lookup(j.members, "description").value.s)
  }

  /**
   * `[ICD10Code(code=c.code, description=c.description) for c in output.result]`:
   * a list of records; an empty dict or string iterates to no codes; anything else raises.
   */
  function ICD10Shape(j: Json): Response
  {
    match j
    case Arr(items) =>
      if forall k | 0 <= k < |items| :: CodeRecord(items[k]) then
        ICD10Response(seq(|items|, k requires 0 <= k < |items| => CodeOf(items[k])))
      else ErrorResponse(LibraryError)
    case Obj(ms) => if ms == [] then ICD10Response([]) else ErrorResponse(LibraryError)
    case Str(s) => if s == "" then ICD10Response([]) else ErrorResponse(LibraryError)
    case _ => ErrorResponse(LibraryError)
  }

  /** `result.get(key, default)` where the model field is a string: None when the value is not one. */
  function TextOr(ms: seq<(string, Json)>, key: string, default: string): Option<string>
  {
    match Lookup(ms, key)
    case None => Some(default)
    case Some(Str(s)) => Some(s)
    case Some(_) => None
  }

  /** `result.get(key, None)` where the model field is `Optional[str]`: None when the value is neither. */
  function OptionalText(ms: seq<(string, Json)>, key: string): Option<Option<string>>
  {
    match Lookup(ms, key)
    case None => Some(None)
    case Some(Null) => Some(None)
    case Some(Str(s)) => Some(Some(s))
    case Some(_) => None
  }

  /** The four SOAP sections, each "" when missing. */
  function SOAPShape(j: Json): Response
  {
    if !j.Obj? then ErrorResponse(LibraryError)
    else
      var s := TextOr(j.members, "Subjective", "");
      var o := TextOr(j.members, "Objective", "");
      var a := TextOr(j.members, "Assessment", "");
      var p := TextOr(j.members, "Plan", "");
      if s.Some? && o.Some? && a.Some? && p.Some? then
        SOAPResponse(SOAPNote(s.value, o.value, a.value, p.value))
      else ErrorResponse(LibraryError)
  }

  /** The `RadiologyReport` built with defaults, which the endpoint then discards. */
  function DefaultedReport(ms: seq<(string, Json)>): Option<RadiologyReport>
  {
    var t := TextOr(ms, "technique", "");
    var f := TextOr(ms, "findings", "");
    var i := TextOr(ms, "impression", "");
    var r := TextOr(ms, "recommendations", "");
    var q := OptionalText(ms, "answer_to_user_question");
    if t.Some? && f.Some? && i.Some? && r.Some? && q.Some? then
      Some(RadiologyReport(t.value, f.value, i.value, r.value, q.value))
    else None
  }

  /** The raw result read as `RadiologyReport` with no defaults: the four sections must be there. */
  function RawReport(ms: seq<(string, Json)>): Option<RadiologyReport>
  {
    var q := OptionalText(ms, "answer_to_user_question");
    if StrField(ms, "technique") && StrField(ms, "findings") && StrField(ms, "impression")
      && StrField(ms, "recommendations") && q.Some?
    then
      Some(RadiologyReport(Lookup(ms, "technique").value.s, Lookup(ms, "findings").value.s,
        Lookup(ms, "impression").value.s, Lookup(ms, "recommendations").value.s, q.value))
    else None
  }

  /** The discarded report is built first; the response then carries the raw result. */
  function ImageShape(j: Json): Response
  {
    if !j.Obj? then ErrorResponse(LibraryError)
    else if DefaultedReport(j.members).None? then ErrorResponse(LibraryError)
    else match RawReport(j.members)
      case Some(report) => ImageAnalysisResponse(report)
      case None => ErrorResponse(LibraryError)
  }

  /** The if/elif chain over the final state: a truthy error first, then the type. */
  function Shape(out: Snapshot): Response
  {
    if out.error.Some? && out.error.value != "" then ErrorResponse(out.error.value)
    else match out.kind
      case Some(ICD10) => ICD10Shape(ResultValue(out.result))
      case Some(SOAP) => SOAPShape(ResultValue(out.result))
      case Some(ImageAnalysis) => ImageShape(ResultValue(out.result))
      case None => ErrorResponse("Unknown analysis type.")
  }

  /** The graph's output read as a `State`, then shaped. */
  function ShapeOutput(o: GraphOutput): Response
  {
    match o
    case AsMapping(fields) => Shape(fields)
    case AsState(state) => Shape(state)
    case OtherOutput => ErrorResponse("Unexpected output type from graph.")
  }

  /** The endpoint's answer to a request, the pipeline's model being `generate`. */
  function AnalyzeSpec(note: Option<string>, upload: Option<Upload>, generate: Generator): Response
  {
    if !NoteGiven(note) && upload.None? then BadRequest("No input provided.")
    else match InitialEntries(note, upload)
      case Failure(e) => ErrorResponse(e)
      case Success(entries) =>
        match Expected(Snapshot(None, entries, NoOutput, None), generate)
        case Failure(e) => ErrorResponse(e)
        case Success(out) => ShapeOutput(AsMapping(out))
  }

  /** The request is refused with "No input provided." exactly when there is neither a truthy note nor an upload. */
  lemma RejectedIff(note: Option<string>, upload: Option<Upload>, generate: Generator)
    ensures AnalyzeSpec(note, upload, generate).BadRequest? <==> !NoteGiven(note) && upload.None?
    ensures AnalyzeSpec(note, upload, generate).BadRequest? ==>
      AnalyzeSpec(note, upload, generate).message == "No input provided."
  {
    if NoteGiven(note) || upload.Some? {
      match InitialEntries(note, upload)
      case Failure(e) =>
      case Success(entries) =>
        match Expected(Snapshot(None, entries, NoOutput, None), generate)
        case Failure(e) =>
        case Success(out) => ShapedNotRefused(out);
    }
  }

  /** Shaping a final state never produces the 400 reply. */
  lemma ShapedNotRefused(out: Snapshot)
    ensures !ShapeOutput(AsMapping(out)).BadRequest?
  {
    match out.kind
    case Some(ICD10) => assert !ICD10Shape(ResultValue(out.result)).BadRequest?;
    case Some(SOAP) =>
    case Some(ImageAnalysis) =>
    case None =>
  }

  /**
   * The initial payload holds `note` exactly when the note is truthy and
   * `image` exactly when the upload has a file name, and nothing else; only
   * decoding the upload can fail.
   */
  lemma InitialPayload(note: Option<string>, upload: Option<Upload>)
    ensures InitialEntries(note, upload).Failure? <==>
      upload.Some? && upload.value.filename != "" && upload.value.decoded.Failure?
    ensures InitialEntries(note, upload).Success? ==>
      var entries := InitialEntries(note, upload).value;
      && entries.Keys <= {"note", "image"}
      && ("note" in entries <==> NoteGiven(note))
      && (NoteGiven(note) ==> entries["note"] == Text(note.value))
      && ("image" in entries <==> upload.Some? && upload.value.filename != "")
      && ("image" in entries ==> entries["image"] == Picture(Uploaded(upload.value.decoded.value)))
  {
  }

  /** A truthy error wins over everything else in the final state. */
  lemma ErrorFirst(out: Snapshot)
    requires out.error.Some? && out.error.value != ""
    ensures Shape(out) == ErrorResponse(out.error.value)
  {
  }

  /** With no error and no type, the answer is "Unknown analysis type."; a mapping and a `State` are read alike. */
  lemma UnknownType(out: Snapshot)
    requires (out.error.None? || out.error.value == "") && out.kind == None
    ensures Shape(out) == ErrorResponse("Unknown analysis type.")
    ensures ShapeOutput(AsMapping(out)) == ShapeOutput(AsState(out)) == Shape(out)
    ensures ShapeOutput(OtherOutput) == ErrorResponse("Unexpected output type from graph.")
  {
  }

  /** A list of records becomes the codes, one per record, in order and with the same fields. */
  lemma ICD10Codes(items: seq<Json>)
    requires forall k | 0 <= k < |items| :: CodeRecord(items[k])
    ensures ICD10Shape(Arr(items)).ICD10Response?
    ensures |ICD10Shape(Arr(items)).codes| == |items|
    ensures forall k | 0 <= k < |items| ::
      Some(Str(ICD10Shape(Arr(items)).codes[k].code)) == Lookup(items[k].members, "code")
      && Some(Str(ICD10Shape(Arr(items)).codes[k].description)) == Lookup(items[k].members, "description")
  {
  }

  /**
   * A SOAP result is answered when each section is missing or a string; a
   * missing section becomes "" and a present one is passed on.
   */
  lemma SOAPDefaults(ms: seq<(string, Json)>, key: string)
    requires key in {"Subjective", "Objective", "Assessment", "Plan"}
    ensures SOAPShape(Obj(ms)).SOAPResponse? ==>
      (Lookup(ms, key).None? || Lookup(ms, key).value.Str?)
    ensures SOAPShape(Obj(ms)).SOAPResponse? && Lookup(ms, key).None? ==>
      SectionOf(SOAPShape(Obj(ms)).note, key) == ""
    ensures SOAPShape(Obj(ms)).SOAPResponse? && Lookup(ms, key).Some? ==>
      Lookup(ms, key) == Some(Str(SectionOf(SOAPShape(Obj(ms)).note, key)))
    ensures !SOAPShape(Obj(ms)).SOAPResponse? ==> SOAPShape(Obj(ms)) == ErrorResponse(LibraryError)
  {
  }

  /** The section of a SOAP note a key names. */
  function SectionOf(note: SOAPNote, key: string): string
  {
    if key == "Subjective" then note.subjective
    else if key == "Objective" then note.objective
    else if key == "Assessment" then note.assessment
    else note.plan
  }

  /**
   * For image analysis the raw result is what is answered: it must hold the
   * four sections as strings, and the report carries exactly its values.
   */
  lemma ImageRawResult(ms: seq<(string, Json)>)
    ensures ImageShape(Obj(ms)).ImageAnalysisResponse? <==>
      StrField(ms, "technique") && StrField(ms, "findings") && StrField(ms, "impression")
      && StrField(ms, "recommendations") && OptionalText(ms, "answer_to_user_question").Some?
    ensures ImageShape(Obj(ms)).ImageAnalysisResponse? ==>
      var report := ImageShape(Obj(ms)).report;
      && Lookup(ms, "technique") == Some(Str(report.technique))
      && Lookup(ms, "findings") == Some(Str(report.findings))
      && Lookup(ms, "impression") == Some(Str(report.impression))
      && Lookup(ms, "recommendations") == Some(Str(report.recommendations))
  {
  }

  /**
   * The defaults of the report built first never reach the answer: a result
   * in which any of the four sections is missing or not a string is refused,
   * even where that report was built with "" in its place.
   */
  lemma ImageDefaultsDiscarded(ms: seq<(string, Json)>, key: string)
    requires key in {"technique", "findings", "impression", "recommendations"}
    requires !StrField(ms, key)
    ensures ImageShape(Obj(ms)) == ErrorResponse(LibraryError)
  {
  }

  /** An exception from the router's model call is answered with its text. */
  lemma RouterFailureAnswered(note: Option<string>, upload: Option<Upload>, generate: Generator, entries: map<string, Value>)
    requires NoteGiven(note) || upload.Some?
    requires InitialEntries(note, upload) == Success(entries)
    requires generate(RouterPromptFor(entries)).Failure?
    ensures AnalyzeSpec(note, upload, generate) == ErrorResponse(generate(RouterPromptFor(entries)).error)
  {
  }

  /** An unknown label reaches the caller as the router's message, the label normalised. */
  lemma UnknownLabelAnswered(note: Option<string>, upload: Option<Upload>, generate: Generator,
                             entries: map<string, Value>, answer: string)
    requires NoteGiven(note) || upload.Some?
    requires InitialEntries(note, upload) == Success(entries)
    requires generate(RouterPromptFor(entries)) == Success(answer)
    requires TaskOf(NormalizeLabel(answer)) == None
    ensures AnalyzeSpec(note, upload, generate) ==
      ErrorResponse("Unknown response from RouterAgent: " + NormalizeLabel(answer))
  {
    var before := Snapshot(None, entries, NoOutput, None);
    var name := NormalizeLabel(answer);
    UnknownLabelStops(before, name, generate);
    assert Expected(before, generate) == AfterRouter(before, name, generate);
  }

  /**
   * When the ICD-10 agent fails, its error reaches the caller although the
   * type and the router's label are still set.
   */
  lemma ICD10FailureAnswered(note: Option<string>, upload: Option<Upload>, generate: Generator,
                             entries: map<string, Value>, answer: string)
    requires NoteGiven(note) || upload.Some?
    requires InitialEntries(note, upload) == Success(entries)
    requires generate(RouterPromptFor(entries)) == Success(answer)
    requires NormalizeLabel(answer) == "icd10"
    requires TaskResult(generate(ICD10PromptFor(Prepared(entries, ICD10)))).Failure?
    requires TaskResult(generate(ICD10PromptFor(Prepared(entries, ICD10)))).error != ""
    ensures AnalyzeSpec(note, upload, generate) ==
      ErrorResponse(TaskResult(generate(ICD10PromptFor(Prepared(entries, ICD10)))).error)
  {
    var before := Snapshot(None, entries, NoOutput, None);
    KnownLabelDispatches(before, generate, ICD10);
    assert Expected(before, generate) == AfterRouter(before, "icd10", generate);
  }

  /** `analyze`: the request is answered as `AnalyzeSpec` says. */
  method AnalyzeRequest(pipeline: Pipeline, note: Option<string>, upload: Option<Upload>) returns (resp: Response)
    requires pipeline.Valid()
    ensures resp == AnalyzeSpec(note, upload, pipeline.generate)
  {
    if !NoteGiven(note) && upload.None? {
      return BadRequest("No input provided.");
    }
    var empty := new Payload();
    var state := new State(None, empty, NoOutput, None);
    if NoteGiven(note) {
      state.payload.Set("note", Text(note.value));
    }
    if upload.Some? && upload.value.filename != "" {
      match upload.value.decoded {
        case Failure(e) => return ErrorResponse(e);
        case Success(id) => state.payload.Set("image", Picture(Uploaded(id)));
      }
    }
    assert InitialEntries(note, upload) == Success(state.payload.entries);
    var rawOutput := pipeline.Invoke(state);
    if rawOutput.Failure? {
      return ErrorResponse(rawOutput.error);
    }
    resp := ShapeOutput(AsMapping(rawOutput.value));
  }
}
