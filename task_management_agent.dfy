/**
 * The tool bodies of `TaskManagementAgent` (app/agents/task_management_agent.py):
 * its own `extract_tasks_from_text`, `add_tasks_tool`, which validates every
 * extracted element as a `Task` before handing the list to the store, and the
 * two pass-through tools.
 *
 * Validation (`Task(**task)`, pydantic) is a parameter: it either yields a
 * task or fails with the text of the exception it raises.
 */
module TaskManagementAgent {

  import opened Wrappers
  import opened Calendar
  import opened ExtractTasksPrompt
  import opened Llm
  import opened GoogleCalendar
  import GigaChatService

  /** `Task(**task)`: a task, or the message of the validation error. */
  type Coercion = Json -> Result<Task, string>

  /** The agent's classification of one model outcome (lines 180-192). */
  function ClassifyReply(o: ModelOutcome): (r: Reply)
    ensures TasksIsArray(r)
    ensures o.Parsed? && HasTaskArray(o.value) ==> r == o.value.fields
    ensures o.Parsed? && !HasTaskArray(o.value) ==> r == WithError(GigaChatService.InvalidStructure)
    ensures RaisedDecodeError(o) ==> r == WithError(GigaChatService.DecodeError)
    ensures !o.Parsed? && o.raised == OtherError ==> r == NoTasks
  {
    match o
    case Parsed(v) => if HasTaskArray(v) then v.fields else WithError("Invalid overall structure")
    case _ => if o.raised == JsonDecodeError then WithError("JSONDecodeError") else NoTasks
  }

  /** The agent classifies every outcome exactly as the GigaChat service does. */
  lemma AgreesWithGigaChat(o: ModelOutcome)
    ensures ClassifyReply(o) == GigaChatService.ClassifyReply(o)
  {
  }

  /** `extract_tasks_from_text` of the agent, with the model and the reference instant as parameters. */
  function ExtractTasksFromText(model: ChatModel, i: Instant, text: string): (r: Reply)
    requires PromptDefined(i)
    ensures TasksIsArray(r)
    ensures var o := Ask(model, i, text);
      && (o.Parsed? && HasTaskArray(o.value) ==> r == o.value.fields)
      && (o.Parsed? && !HasTaskArray(o.value) ==> r == WithError(GigaChatService.InvalidStructure))
      && (RaisedDecodeError(o) ==> r == WithError(GigaChatService.DecodeError))
      && (!o.Parsed? && o.raised == OtherError ==> r == NoTasks)
  {
    ClassifyReply(Ask(model, i, text))
  }

  /**
   * `[Task(**task) for task in items]`: every element coerced, in order, or
   * the error of the first element that fails.
   */
  function CoerceAll(items: seq<Json>, coerce: Coercion): (r: Result<seq<Task>, string>)
    ensures r.Success? <==> forall k :: 0 <= k < |items| ==> coerce(items[k]).Success?
    ensures r.Success? ==>
      |r.value| == |items| && forall k :: 0 <= k < |items| ==> r.value[k] == coerce(items[k]).value
    ensures r.Failure? ==>
      exists k :: 0 <= k < |items| && coerce(items[k]) == Failure(r.error) &&
        forall j :: 0 <= j < k ==> coerce(items[j]).Success?
  {
    if items == [] then Success([])
    else match coerce(items[0])
      case Failure(e) => Failure(e)
      case Success(t) =>
        match CoerceAll(items[1..], coerce)
        case Failure(e) => Failure(e)
        case Success(ts) => Success([t] + ts)
  }

  const AddFailurePrefix: string := "Ошибка добавления задач: "

  /** `str(e)` of the `OverflowError` raised when tomorrow or the day after is not a representable date. */
  const OverflowMessage: string := "date value out of range"

  /**
   * The part of `add_tasks_tool` after extraction: coerce every element of
   * the extracted `"tasks"` and hand the list to the store, or report the
   * first validation error.
   */
  function StoreExtracted(data: Reply, coerce: Coercion): (r: Reply)
    requires TasksIsArray(data)
    ensures r.Keys == {"message"} || (r.Keys == {"tasks", "error"} && r["tasks"] == JArr([]))
  {
    match CoerceAll(data["tasks"].items, coerce)
    case Success(tasks) => AddTask(tasks)
    case Failure(e) => WithError(AddFailurePrefix + e)
  }

  /**
   * `add_tasks_tool(text)`. The prompt is built inside the `try`, so an
   * instant whose day after tomorrow overflows becomes an error reply too;
   * no exception escapes.
   */
  function AddTasksTool(model: ChatModel, coerce: Coercion, i: Instant, text: string): (r: Reply)
    requires ValidInstant(i) && FourDigitYear(i.date)
    ensures r.Keys == {"message"} || (r.Keys == {"tasks", "error"} && r["tasks"] == JArr([]))
    ensures !PromptDefined(i) ==> r == WithError(AddFailurePrefix + OverflowMessage)
    ensures PromptDefined(i) ==> r == StoreExtracted(ExtractTasksFromText(model, i, text), coerce)
  {
    if !PromptDefined(i) then WithError(AddFailurePrefix + OverflowMessage)
    else StoreExtracted(ExtractTasksFromText(model, i, text), coerce)
  }

  /**
   * All or nothing, first half: when every element coerces, the store
   * receives all of them in order and its reply is returned.
   */
  lemma AllCoercedReachStore(data: Reply, coerce: Coercion)
    requires TasksIsArray(data)
    requires forall k :: 0 <= k < |data["tasks"].items| ==> coerce(data["tasks"].items[k]).Success?
    ensures var items := data["tasks"].items;
      exists tasks: seq<Task> ::
        && |tasks| == |items|
        && (forall k :: 0 <= k < |items| ==> tasks[k] == coerce(items[k]).value)
        && StoreExtracted(data, coerce) == AddTask(tasks)
  {
    var c := CoerceAll(data["tasks"].items, coerce);
    assert StoreExtracted(data, coerce) == AddTask(c.value);
  }

  /**
   * All or nothing, second half: when element k is the first that fails,
   * the store is not called and the reply names that element's error.
   */
  lemma FirstFailureReported(data: Reply, coerce: Coercion, k: int)
    requires TasksIsArray(data)
    requires 0 <= k < |data["tasks"].items| && coerce(data["tasks"].items[k]).Failure?
    requires forall j :: 0 <= j < k ==> coerce(data["tasks"].items[j]).Success?
    ensures StoreExtracted(data, coerce) == WithError(AddFailurePrefix + coerce(data["tasks"].items[k]).error)
  {
    var items := data["tasks"].items;
    var c := CoerceAll(items, coerce);
    var k0 :| 0 <= k0 < |items| && coerce(items[k0]) == Failure(c.error) &&
      forall j :: 0 <= j < k0 ==> coerce(items[j]).Success?;
    assert k0 == k;
  }

  /**
   * When extraction yields no tasks, whatever the reason, the store is
   * called with the empty list: the reply is the formatter's fallback and
   * an extraction `"error"` string is dropped.
   */
  lemma EmptyExtractionGivesFallback(data: Reply, coerce: Coercion)
    requires TasksIsArray(data) && data["tasks"].items == []
    ensures StoreExtracted(data, coerce) == map["message" := JStr(NoTasksMessage("текстового сообщения"))]
    ensures "error" !in StoreExtracted(data, coerce)
  {
    assert CoerceAll([], coerce) == Success([]);
  }

  /** Every failed extraction yields no tasks, so its reply is the fallback message. */
  lemma FailedExtractionGivesFallback(model: ChatModel, coerce: Coercion, i: Instant, text: string)
    requires PromptDefined(i)
    requires var o := Ask(model, i, text); !(o.Parsed? && HasTaskArray(o.value))
    ensures AddTasksTool(model, coerce, i, text) ==
      map["message" := JStr(NoTasksMessage("текстового сообщения"))]
  {
    EmptyExtractionGivesFallback(ExtractTasksFromText(model, i, text), coerce);
  }

  /**
   * The shape `Task(**task)` accepts: an object whose `title`, `datetime` and
   * `duration_minutes` are strings; other keys are ignored.
   */
  predicate IsTaskObject(j: Json) {
    && j.JObj?
    && "title" in j.fields && j.fields["title"].JStr?
    && "datetime" in j.fields && j.fields["datetime"].JStr?
    && "duration_minutes" in j.fields && j.fields["duration_minutes"].JStr?
  }

  function TaskOf(j: Json): Task
    requires IsTaskObject(j)
  {
    Task(j.fields["title"].s, j.fields["datetime"].s, j.fields["duration_minutes"].s)
  }

  /** The tasks read from a list of task objects, in order. */
  function TasksOf(items: seq<Json>): (tasks: seq<Task>)
    requires forall k :: 0 <= k < |items| ==> IsTaskObject(items[k])
    ensures |tasks| == |items|
    ensures forall k :: 0 <= k < |items| ==> tasks[k] == TaskOf(items[k])
  {
    if items == [] then [] else [TaskOf(items[0])] + TasksOf(items[1..])
  }

  /** A coercion that accepts exactly the task objects and keeps their three strings. */
  ghost predicate ChecksShape(coerce: Coercion) {
    forall j :: (coerce(j).Success? <==> IsTaskObject(j)) && (coerce(j).Success? ==> coerce(j).value == TaskOf(j))
  }

  /**
   * With a coercion that checks the shape, the store is reached (the reply is
   * a bare `"message"`) exactly when every element is a task object, and it
   * then receives those tasks in order.
   */
  lemma ShapeDecidesStore(data: Reply, coerce: Coercion)
    requires TasksIsArray(data) && ChecksShape(coerce)
    ensures var items := data["tasks"].items;
      && (StoreExtracted(data, coerce).Keys == {"message"} <==>
            forall k :: 0 <= k < |items| ==> IsTaskObject(items[k]))
      && ((forall k :: 0 <= k < |items| ==> IsTaskObject(items[k])) ==>
            StoreExtracted(data, coerce) == AddTask(TasksOf(items)))
  {
    var items := data["tasks"].items;
    var c := CoerceAll(items, coerce);
    if c.Success? {
      assert c.value == TasksOf(items);
    } else {
      assert StoreExtracted(data, coerce).Keys == {"tasks", "error"};
      assert "tasks" !in {"message"};
    }
  }

  /** `get_tasks_tool()`: the store's listing, unchanged. */
  function GetTasksTool(): (r: Reply)
    ensures r == GetTasks("")
  {
    GetTasks("")
  }

  /** `delete_task_tool(task_description)`: the store's answer for that description, unchanged. */
  function DeleteTaskTool(description: string): (r: Reply)
    ensures r == DeleteTask(description)
  {
    DeleteTask(description)
  }
}
