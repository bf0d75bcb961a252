/**
 * What the three extraction paths share: the JSON values `json.loads`
 * produces, the outcome of one model round trip, the two chat messages
 * sent, and the reply dictionaries returned.
 *
 * The model call and the JSON decoder are foreign code: a chat model is a
 * function from the messages to a `ModelOutcome`, which says whether the
 * call raised, whether decoding its content raised (and which class of
 * exception either raised), or what the content decoded to.
 */
module Llm {

  import opened Calendar
  import opened ExtractTasksPrompt

  /** A decoded JSON value (floating-point numbers are not modelled). */
  datatype Json =
    | JNull
    | JBool(b: bool)
    | JInt(n: int)
    | JStr(s: string)
    | JArr(items: seq<Json>)
    | JObj(fields: map<string, Json>)

  /** Python truthiness of a decoded value: `None`, `False`, `0` and empty containers are false. */
  predicate Truthy(j: Json) {
    match j
    case JNull => false
    case JBool(b) => b
    case JInt(n) => n != 0
    case JStr(s) => |s| > 0
    case JArr(items) => |items| > 0
    case JObj(fields) => |fields| > 0
  }

  /** A dictionary returned by an extraction or a tool. */
  type Reply = map<string, Json>

  /**
   * The class of an exception raised inside an extraction's `try`, as far as
   * its `except` clauses tell classes apart: `json.JSONDecodeError` or any
   * other `Exception`.
   */
  datatype ErrorClass = JsonDecodeError | OtherError

  /**
   * One round trip through a chat model: `invoke(messages)` raised, the
   * decoding of `res.content` (or the logging before it) raised, or the
   * content decoded to a value.
   */
  datatype ModelOutcome =
    | InvokeRaised(raised: ErrorClass)
    | DecodeRaised(raised: ErrorClass)
    | Parsed(value: Json)

  /** The round trip raised `json.JSONDecodeError`, wherever it was raised. */
  predicate RaisedDecodeError(o: ModelOutcome) {
    !o.Parsed? && o.raised == JsonDecodeError
  }

  datatype Message = SystemMessage(content: string) | HumanMessage(content: string)

  type ChatModel = seq<Message> -> ModelOutcome

  /** The messages every extraction sends: the system prompt, then the user's text unchanged. */
  function ExtractionMessages(i: Instant, text: string): (ms: seq<Message>)
    requires PromptDefined(i)
    ensures |ms| == 2
    ensures ms[0].SystemMessage? && ms[0].content == Prompt(i)
    ensures ms[1].HumanMessage? && ms[1].content == text
  {
    [SystemMessage(Prompt(i)), HumanMessage(text)]
  }

  /** The outcome of sending the extraction messages for `text` at instant i to the model. */
  function Ask(model: ChatModel, i: Instant, text: string): ModelOutcome
    requires PromptDefined(i)
  {
    model(ExtractionMessages(i, text))
  }

  /**
   * `isinstance(d, dict) and "tasks" in d and isinstance(d["tasks"], list)`;
   * each conjunct is only evaluated when the ones before it hold.
   */
  predicate HasTaskArray(j: Json) {
    j.JObj? && "tasks" in j.fields && j.fields["tasks"].JArr?
  }

  /** The tasks a reply carries, when its `"tasks"` entry is an array. */
  predicate TasksIsArray(r: Reply) {
    "tasks" in r && r["tasks"].JArr?
  }

  /** `{"tasks": []}` */
  const NoTasks: Reply := map["tasks" := JArr([])]

  /** `{"tasks": [], "error": e}` */
  function WithError(e: string): (r: Reply)
    ensures TasksIsArray(r) && r["tasks"].items == []
    ensures r.Keys == {"tasks", "error"} && r["error"] == JStr(e)
  {
    map["tasks" := JArr([]), "error" := JStr(e)]
  }
}
