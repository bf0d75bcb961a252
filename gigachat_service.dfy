/**
 * `GigaChatService.extract_tasks_from_text` (app/services/gigachat_service.py):
 * send the prompt and the text, decode the reply, and classify it into one
 * of four outcomes, two of them marked with an `"error"` string.
 */
module GigaChatService {

  import opened Calendar
  import opened ExtractTasksPrompt
  import opened Llm

  const InvalidStructure: string := "Invalid overall structure"
  const DecodeError: string := "JSONDecodeError"

  /** The reply dictionary for one model outcome. */
  function ClassifyReply(o: ModelOutcome): (r: Reply)
    ensures TasksIsArray(r)
    ensures o.Parsed? && HasTaskArray(o.value) ==> r == o.value.fields
    ensures o.Parsed? && !HasTaskArray(o.value) ==> r == WithError(InvalidStructure)
    ensures RaisedDecodeError(o) ==> r == WithError(DecodeError)
    ensures !o.Parsed? && o.raised == OtherError ==> r == NoTasks
  {
    match o
    case Parsed(v) => if HasTaskArray(v) then v.fields else WithError(InvalidStructure)
    case _ => if o.raised == JsonDecodeError then WithError(DecodeError) else NoTasks
  }

  /** `extract_tasks_from_text(text)` with the model and the reference instant as parameters. */
  function ExtractTasksFromText(model: ChatModel, i: Instant, text: string): (r: Reply)
    requires PromptDefined(i)
    ensures TasksIsArray(r)
    ensures var o := Ask(model, i, text);
      && (o.Parsed? && HasTaskArray(o.value) ==> r == o.value.fields)
      && (o.Parsed? && !HasTaskArray(o.value) ==> r == WithError(InvalidStructure))
      && (RaisedDecodeError(o) ==> r == WithError(DecodeError))
      && (!o.Parsed? && o.raised == OtherError ==> r == NoTasks)
  {
    ClassifyReply(Ask(model, i, text))
  }

  /**
   * The three ways a decoded reply can have the wrong shape, tested in this
   * order: not an object, no `"tasks"` key, a `"tasks"` value that is not an
   * array. Each gives the same error reply.
   */
  lemma WrongShapes(j: Json)
    ensures !j.JObj? ==> ClassifyReply(Parsed(j)) == WithError(InvalidStructure)
    ensures j.JObj? && "tasks" !in j.fields ==> ClassifyReply(Parsed(j)) == WithError(InvalidStructure)
    ensures j.JObj? && "tasks" in j.fields && !j.fields["tasks"].JArr? ==>
      ClassifyReply(Parsed(j)) == WithError(InvalidStructure)
  {
  }

  /**
   * Every outcome but a well-shaped reply yields an empty task array and
   * nothing but `"tasks"` and possibly `"error"`; the error is missing
   * exactly when something other than `JSONDecodeError` was raised.
   */
  lemma FailuresCarryEmptyTasks(o: ModelOutcome)
    requires !(o.Parsed? && HasTaskArray(o.value))
    ensures var r := ClassifyReply(o);
      && r["tasks"] == JArr([])
      && r.Keys <= {"tasks", "error"}
      && ("error" !in r <==> !o.Parsed? && o.raised == OtherError)
  {
  }
}
