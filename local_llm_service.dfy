/**
 * `LocalLLMService.extract_tasks_from_text` (app/services/local_llm_service.py):
 * the same classification as the GigaChat service, but every failure it
 * catches is a bare `{"tasks": []}`, and a client that failed to initialise
 * (`self.llm` is `None`) answers that without building the prompt or
 * calling anything.
 *
 * One failure escapes: when `invoke` itself raises `JSONDecodeError`, the
 * handler for that class logs `res.content` while `res` is still unbound, so
 * an `UnboundLocalError` leaves the method. `None` stands for that.
 */
module LocalLlmService {

  import opened Wrappers
  import opened Calendar
  import opened ExtractTasksPrompt
  import opened Llm
  import GigaChatService

  /** The reply dictionary for one model outcome; `None` when the method raises. */
  function ClassifyReply(o: ModelOutcome): (r: Option<Reply>)
    ensures r.None? <==> o == InvokeRaised(JsonDecodeError)
    ensures r.Some? ==> TasksIsArray(r.value)
    ensures o.Parsed? && HasTaskArray(o.value) ==> r == Some(o.value.fields)
    ensures o.Parsed? && !HasTaskArray(o.value) ==> r == Some(NoTasks)
    ensures o.DecodeRaised? || o == InvokeRaised(OtherError) ==> r == Some(NoTasks)
  {
    match o
    case InvokeRaised(e) => if e == JsonDecodeError then None else Some(NoTasks)
    case DecodeRaised(_) => Some(NoTasks)
    case Parsed(v) => if HasTaskArray(v) then Some(v.fields) else Some(NoTasks)
  }

  /**
   * `extract_tasks_from_text(text)`; `llm` is `None` when the client could
   * not be constructed, and the result is `None` when the method raises.
   * The prompt is only built when there is a client.
   */
  function ExtractTasksFromText(llm: Option<ChatModel>, i: Instant, text: string): (r: Option<Reply>)
    requires llm.Some? ==> PromptDefined(i)
    ensures r.Some? ==> TasksIsArray(r.value)
    ensures llm.None? ==> r == Some(NoTasks)
    ensures llm.Some? ==> var o := Ask(llm.value, i, text);
      && (r.None? <==> o == InvokeRaised(JsonDecodeError))
      && (o.Parsed? && HasTaskArray(o.value) ==> r == Some(o.value.fields))
      && (!(o.Parsed? && HasTaskArray(o.value)) && r.Some? ==> r == Some(NoTasks))
  {
    if llm.None? then Some(NoTasks) else ClassifyReply(Ask(llm.value, i, text))
  }

  /**
   * Whenever the local service returns, it agrees with the GigaChat service on
   * `"tasks"`; a well-shaped reply passes through both untouched, and any
   * other is the GigaChat reply with its `"error"` entry removed. Where the
   * local service raises, the GigaChat one reports a decode error.
   */
  lemma AgreesWithGigaChat(o: ModelOutcome)
    ensures ClassifyReply(o).Some? ==> ClassifyReply(o).value["tasks"] == GigaChatService.ClassifyReply(o)["tasks"]
    ensures o.Parsed? && HasTaskArray(o.value) ==> ClassifyReply(o) == Some(GigaChatService.ClassifyReply(o))
    ensures !(o.Parsed? && HasTaskArray(o.value)) && ClassifyReply(o).Some? ==>
      ClassifyReply(o).value == GigaChatService.ClassifyReply(o) - {"error"}
    ensures ClassifyReply(o).None? ==> GigaChatService.ClassifyReply(o) == WithError(GigaChatService.DecodeError)
  {
    if !(o.Parsed? && HasTaskArray(o.value)) {
      var g := GigaChatService.ClassifyReply(o);
      assert (g - {"error"}).Keys == {"tasks"};
      assert g - {"error"} == NoTasks;
    }
  }

  /**
   * No failure the method catches can be told apart from a model that
   * genuinely answered `{"tasks": []}`: the reply never carries an `"error"` key.
   */
  lemma FailuresLookLikeEmptyAnswer(o: ModelOutcome)
    requires !(o.Parsed? && HasTaskArray(o.value)) && o != InvokeRaised(JsonDecodeError)
    ensures ClassifyReply(o) == ClassifyReply(Parsed(JObj(NoTasks)))
    ensures "error" !in ClassifyReply(o).value
  {
    assert HasTaskArray(JObj(NoTasks));
  }

  /** A missing client gives the same answer as a model that answered `{"tasks": []}`. */
  lemma MissingClientLooksLikeEmptyAnswer(i: Instant, text: string)
    ensures ExtractTasksFromText(None, i, text) == ClassifyReply(Parsed(JObj(NoTasks)))
  {
    assert HasTaskArray(JObj(NoTasks));
  }
}
