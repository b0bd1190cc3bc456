/**
 * What every task agent does with the model's answer once it has one:
 * `clean_json_response`, then `json.loads`, then `State(..., result=...)`,
 * whose declared result type may refuse the value.
 */
module Outcome {
  import opened Wrappers
  import opened JsonValue
  import opened JsonDecode
  import opened Repair
  import opened PipelineState

  /** The value an agent stores as its result, or the text of the exception on the way. */
  function TaskResult(reply: Result<string, string>): Result<Json, string>
  {
    match reply
    case Failure(e) => Failure(e)
    case Success(raw) =>
      var v := RepairValue(Normalize(raw));
      if ResultAccepted(v) then Success(v) else Failure(LibraryError)
  }

  /**
   * Repair and the parse after it never raise: the stored result is exactly
   * what `json.loads` makes of the repaired text, and the only failures are
   * the model's own exception or the result type refusing the value.
   */
  lemma TaskResultParses(reply: Result<string, string>)
    ensures reply.Failure? ==> TaskResult(reply) == Failure(reply.error)
    ensures reply.Success? ==>
      Parse(RepairedText(reply.value)).Some?
      && (TaskResult(reply).Success? <==> ResultAccepted(Parse(RepairedText(reply.value)).value))
      && (TaskResult(reply).Success? ==> TaskResult(reply).value == Parse(RepairedText(reply.value)).value)
      && (TaskResult(reply).Failure? ==> TaskResult(reply).error == LibraryError)
  {
    if reply.Success? {
      RepairParses(reply.value);
    }
  }

  /**
   * When the repaired text is not JSON on its own, the result is the list the
   * recovery scan builds, never a single object: a SOAP or radiology answer
   * with an apostrophe in it comes back as a list.
   */
  lemma FallbackIsList(raw: string)
    requires Parse(Normalize(raw)).None?
    ensures TaskResult(Success(raw)).Success? ==> TaskResult(Success(raw)).value.Arr?
    ensures TaskResult(Success(raw)).Success? ==>
      forall k | 0 <= k < |TaskResult(Success(raw)).value.items| :: Kept(TaskResult(Success(raw)).value.items[k])
  {
    var cleaned := Normalize(raw);
    RepairFallback(cleaned);
    AcceptedValue(raw, RepairValue(cleaned));
  }

  /** On an answer, the result is the repaired value itself when the result type accepts it. */
  lemma AcceptedValue(raw: string, v: Json)
    requires v == RepairValue(Normalize(raw))
    ensures TaskResult(Success(raw)).Success? <==> ResultAccepted(v)
    ensures TaskResult(Success(raw)).Success? ==> TaskResult(Success(raw)).value == v
  {
  }
}
