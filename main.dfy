/**
 * The bot's reply logic (app/main.py): the dictionary-based
 * `format_tasks_for_reply`, which reads each task with defaults and
 * tolerates malformed replies only as far as Python does, and the gate that
 * decides whether a voice transcript is sent for extraction.
 */
module BotMain {

  import opened Wrappers
  import opened Calendar
  import opened Strings
  import opened ExtractTasksPrompt
  import opened Llm
  import opened GoogleCalendar
  import LocalLlmService

  const DefaultTitle: string := "Без названия"
  const DefaultDateTime: string := "не указано"
  const DefaultDuration: string := "не указана"

  /** The reply when `"tasks"` is present but falsy. */
  function RephraseMessage(source: string): string {
    "Я не смог извлечь задачи из вашего " + source + ". Попробуйте сформулировать по-другому."
  }

  /** Decimal digits of n, as `str(n)` writes them. */
  function NatDecimal(n: nat): (s: string)
    ensures |s| >= 1 && AllDigits(s)
  {
    if n < 10 then [DigitChar(n)] else NatDecimal(n / 10) + [DigitChar(n % 10)]
  }

  /** `str(n)` reads back as n, and has no leading zero unless it is "0". */
  lemma {:induction false} NatDecimalRoundTrip(n: nat)
    ensures ParseDigits(NatDecimal(n)) == n
    ensures NatDecimal(n)[0] == '0' <==> n == 0
  {
    if n >= 10 {
      var s := NatDecimal(n);
      assert s[..|s| - 1] == NatDecimal(n / 10);
      NatDecimalRoundTrip(n / 10);
    }
  }

  /** `str(v)` interpolated by an f-string, for the scalars JSON can produce; containers are not modelled. */
  function ScalarText(v: Json): (r: Option<string>)
    ensures r.None? <==> v.JArr? || v.JObj?
    ensures v.JStr? ==> r == Some(v.s)
    ensures v.JInt? && v.n >= 0 ==> r == Some(NatDecimal(v.n))
    ensures v.JInt? && v.n < 0 ==> r == Some("-" + NatDecimal(-v.n))
    ensures v.JBool? ==> r == Some(if v.b then "True" else "False")
    ensures v.JNull? ==> r == Some("None")
  {
    match v
    case JStr(s) => Some(s)
    case JInt(n) => Some(if n < 0 then "-" + NatDecimal(-n) else NatDecimal(n))
    case JBool(b) => Some(if b then "True" else "False")
    case JNull => Some("None")
    case JArr(_) => None
    case JObj(_) => None
  }

  /** `task.get(key, default)` rendered into the line. */
  function FieldText(task: map<string, Json>, key: string, default: string): Option<string> {
    if key !in task then Some(default) else ScalarText(task[key])
  }

  /**
   * `task.get("datetime", "не указано")`, which must be a string: `"T" in x`
   * raises `TypeError` on `None`, a number or a boolean.
   */
  function DateTimeText(task: map<string, Json>): Option<string> {
    if "datetime" !in task then Some(DefaultDateTime)
    else match task["datetime"]
      case JStr(s) => Some(s)
      case _ => None
  }

  /** The key is absent or holds a string. */
  predicate StringOrAbsent(fields: map<string, Json>, key: string) {
    key !in fields || fields[key].JStr?
  }

  /** The string the key holds, or `default` when it is absent. */
  function StringOr(fields: map<string, Json>, key: string, default: string): string
    requires StringOrAbsent(fields, key)
  {
    if key in fields then fields[key].s else default
  }

  /**
   * The three texts shown for one element of `"tasks"`; `None` when Python
   * raises because the element has no `.get` (is not an object) or a field
   * cannot be used. An object whose three fields are strings or absent is
   * read as those strings and the defaults, whatever other keys it has; a
   * datetime that is present but not a string raises.
   */
  function ElementTask(element: Json): (r: Option<Task>)
    ensures !element.JObj? ==> r.None?
    ensures element.JObj? && StringOrAbsent(element.fields, "title") &&
              StringOrAbsent(element.fields, "datetime") && StringOrAbsent(element.fields, "duration_minutes")
      ==> r == Some(Task(StringOr(element.fields, "title", DefaultTitle),
                     StringOr(element.fields, "datetime", DefaultDateTime),
                     StringOr(element.fields, "duration_minutes", DefaultDuration)))
    ensures element.JObj? && "datetime" in element.fields && !element.fields["datetime"].JStr? ==> r.None?
    ensures element.JObj? && StringOrAbsent(element.fields, "datetime") ==>
      (r.Some? <==> FieldText(element.fields, "title", DefaultTitle).Some? &&
                    FieldText(element.fields, "duration_minutes", DefaultDuration).Some?)
    ensures r.Some? ==>
      && r.value.title == FieldText(element.fields, "title", DefaultTitle).value
      && r.value.durationMinutes == FieldText(element.fields, "duration_minutes", DefaultDuration).value
    ensures element.JObj? && "title" !in element.fields ==> r.None? || r.value.title == DefaultTitle
    ensures element.JObj? && "datetime" !in element.fields ==> r.None? || r.value.datetime == DefaultDateTime
    ensures element.JObj? && "duration_minutes" !in element.fields ==>
      r.None? || r.value.durationMinutes == DefaultDuration
  {
    if !element.JObj? then None
    else
      var title := FieldText(element.fields, "title", DefaultTitle);
      var dt := DateTimeText(element.fields);
      var duration := FieldText(element.fields, "duration_minutes", DefaultDuration);
      if title.Some? && dt.Some? && duration.Some? then
        Some(Task(title.value, dt.value, duration.value))
      else None
  }

  /** The texts of all elements, in order, or `None` if any element raises. */
  function ElementTasks(items: seq<Json>): Option<seq<Task>> {
    if items == [] then Some([])
    else
      var front := ElementTasks(items[..|items| - 1]);
      var last := ElementTask(items[|items| - 1]);
      if front.Some? && last.Some? then Some(front.value + [last.value]) else None
  }

  /** All elements are read exactly when each one is, and then each is read as itself would be. */
  lemma {:induction false} ElementTasksReadEach(items: seq<Json>)
    ensures ElementTasks(items).Some? <==> forall k :: 0 <= k < |items| ==> ElementTask(items[k]).Some?
    ensures ElementTasks(items).Some? ==>
      |ElementTasks(items).value| == |items| &&
      forall k :: 0 <= k < |items| ==> ElementTasks(items).value[k] == ElementTask(items[k]).value
  {
    if items != [] {
      var front := items[..|items| - 1];
      ElementTasksReadEach(front);
      assert forall k :: 0 <= k < |front| ==> front[k] == items[k];
    }
  }

  /**
   * `format_tasks_for_reply(extracted_data, source_type)`; `None` when it
   * raises. A reply is never empty and always begins with "Я".
   */
  function ExtractedReply(data: Reply, source: string): (r: Option<string>)
    ensures "tasks" !in data ==> r == Some(NoTasksMessage(source))
    ensures "tasks" in data && !Truthy(data["tasks"]) ==> r == Some(RephraseMessage(source))
    ensures "tasks" in data && Truthy(data["tasks"]) && !data["tasks"].JArr? ==> r.None?
    ensures r.Some? && "tasks" in data && Truthy(data["tasks"]) ==> Header(source) <= r.value
    ensures r.Some? ==> |r.value| > 0 && r.value[0] == 'Я'
  {
    if "tasks" !in data then Some(NoTasksMessage(source))
    else
      var tasks := data["tasks"];
      if !Truthy(tasks) then Some(RephraseMessage(source))
      else if !tasks.JArr? then None
      else
        ElementsReply(tasks.items, source)
  }

  /** The reply for a non-empty list of elements: the typed formatter's text, once every element is read. */
  function ElementsReply(items: seq<Json>, source: string): Option<string> {
    var read := ElementTasks(items);
    if read.None? then None else Some(TasksReply(read.value, source))
  }

  /** `format_tasks_for_reply`: dispatch on `"tasks"`, then the loop over its elements. */
  method FormatTasksForReply(data: Reply, source: string) returns (r: Option<string>)
    ensures r == ExtractedReply(data, source)
  {
    if "tasks" !in data {
      return Some(NoTasksMessage(source));
    }
    var tasks := data["tasks"];
    if !Truthy(tasks) {
      return Some(RephraseMessage(source));
    }
    if !tasks.JArr? {
      return None;
    }
    r := FormatElements(tasks.items, source);
  }

  /** The loop of `format_tasks_for_reply`: one line per element after the header, stopping at the first that raises. */
  method FormatElements(items: seq<Json>, source: string) returns (r: Option<string>)
    requires items != []
    ensures r == ElementsReply(items, source)
  {
    var responseLines := [Header(source)];
    ghost var read: seq<Task> := [];
    for n := 0 to |items|
      invariant ElementTasks(items[..n]) == Some(read)
      invariant responseLines == [Header(source)] + TaskLines(read)
    {
      var task := ElementTask(items[n]);
      if task.None? {
        PrefixFailure(items, n + 1);
        return None;
      }
      ReadStep(items, n, read, task.value);
      responseLines := responseLines + [LineOf(task.value)];
      read := read + [task.value];
    }
    assert items[..|items|] == items;
    AllRead(items, read, source);
    r := Some(Join(responseLines, "\n"));
  }

  /** Once every element is read, the reply is the header and the lines joined. */
  lemma AllRead(items: seq<Json>, read: seq<Task>, source: string)
    requires items != [] && ElementTasks(items) == Some(read)
    ensures ElementsReply(items, source) == Some(Join([Header(source)] + TaskLines(read), "\n"))
  {
    assert read != [];
  }

  /** Reading one more element extends the tasks read and the lines shown by one. */
  lemma ReadStep(items: seq<Json>, n: nat, read: seq<Task>, t: Task)
    requires n < |items| && ElementTasks(items[..n]) == Some(read) && ElementTask(items[n]) == Some(t)
    ensures ElementTasks(items[..n + 1]) == Some(read + [t])
    ensures TaskLines(read + [t]) == TaskLines(read) + [LineOf(t)]
  {
    assert items[..n + 1][..n] == items[..n];
    TaskLinesSnoc(read, t);
  }

  /** If some prefix of the elements raises, so do all of them. */
  lemma PrefixFailure(items: seq<Json>, n: nat)
    requires 0 < n <= |items| && ElementTask(items[n - 1]).None?
    ensures ElementTasks(items).None?
  {
    ElementTasksReadEach(items);
  }

  /** A task as the JSON object the prompt asks the model for. */
  function TaskObject(t: Task): Json {
    JObj(map["title" := JStr(t.title), "datetime" := JStr(t.datetime), "duration_minutes" := JStr(t.durationMinutes)])
  }

  function TaskObjects(tasks: seq<Task>): (items: seq<Json>)
    ensures |items| == |tasks|
    ensures forall k :: 0 <= k < |tasks| ==> items[k] == TaskObject(tasks[k])
  {
    if tasks == [] then [] else TaskObjects(tasks[..|tasks| - 1]) + [TaskObject(tasks[|tasks| - 1])]
  }

  /**
   * On a non-empty list of well-formed task objects the two formatters give
   * the same text; on an empty list they give different fallbacks.
   */
  lemma AgreesWithStoreFormatter(tasks: seq<Task>, source: string)
    ensures var data := map["tasks" := JArr(TaskObjects(tasks))];
      && (tasks != [] ==> ExtractedReply(data, source) == Some(TasksReply(tasks, source)))
      && (tasks == [] ==> ExtractedReply(data, source) == Some(RephraseMessage(source))
                          && TasksReply(tasks, source) == NoTasksMessage(source))
  {
    ReadsAllBack(tasks);
  }

  /** Tasks written as objects read back as themselves, in order. */
  lemma ReadsAllBack(tasks: seq<Task>)
    ensures ElementTasks(TaskObjects(tasks)) == Some(tasks)
  {
    var items := TaskObjects(tasks);
    forall k | 0 <= k < |items|
      ensures ElementTask(items[k]) == Some(tasks[k])
    {
      ReadsBack(tasks[k]);
    }
    ElementTasksReadEach(items);
    assert ElementTasks(items).value == tasks;
  }

  /** A task written as an object reads back as itself. */
  lemma ReadsBack(t: Task)
    ensures ElementTask(TaskObject(t)) == Some(t)
  {
    var f := TaskObject(t).fields;
    assert f["title"] == JStr(t.title);
    assert f["datetime"] == JStr(t.datetime);
    assert f["duration_minutes"] == JStr(t.durationMinutes);
  }

  /**
   * When every element can be read and no text contains a newline, the reply
   * is the header and one line per element, in order: len(tasks) + 1 lines.
   */
  lemma OneLinePerElement(data: Reply, source: string)
    requires "tasks" in data && data["tasks"].JArr? && data["tasks"].items != []
    requires ElementTasks(data["tasks"].items).Some? && NoNewline(source)
    requires var ts := ElementTasks(data["tasks"].items).value;
      forall k :: 0 <= k < |ts| ==>
        NoNewline(ts[k].title) && NoNewline(ts[k].datetime) && NoNewline(ts[k].durationMinutes)
    ensures ExtractedReply(data, source).Some?
    ensures var ts := ElementTasks(data["tasks"].items).value;
      Split(ExtractedReply(data, source).value, '\n') == [Header(source)] + TaskLines(ts)
    ensures |Split(ExtractedReply(data, source).value, '\n')| == |data["tasks"].items| + 1
  {
    var ts := ElementTasks(data["tasks"].items).value;
    ElementTasksReadEach(data["tasks"].items);
    assert Truthy(data["tasks"]);
    assert ExtractedReply(data, source) == Some(TasksReply(ts, source));
    ReplyLines(ts, source);
  }

  /**
   * A number given as the duration, where the prompt asks for a string, is
   * shown as `str(n)`, which reads back as n.
   */
  lemma NumericDurationShown(fields: map<string, Json>, n: nat)
    requires StringOrAbsent(fields, "title") && StringOrAbsent(fields, "datetime")
    requires "duration_minutes" in fields && fields["duration_minutes"] == JInt(n)
    ensures ElementTask(JObj(fields)).Some?
    ensures var d := ElementTask(JObj(fields)).value.durationMinutes;
      AllDigits(d) && ParseDigits(d) == n
  {
    NatDecimalRoundTrip(n);
  }

  /**
   * An object whose three fields are strings or absent is shown with each
   * missing field as its default; a missing datetime shows as "не указано",
   * which is not rewritten.
   */
  lemma MissingFieldsDefault(fields: map<string, Json>)
    requires StringOrAbsent(fields, "title") && StringOrAbsent(fields, "datetime")
    requires StringOrAbsent(fields, "duration_minutes")
    ensures var t := ElementTask(JObj(fields)).value;
      && ("title" !in fields ==> t.title == DefaultTitle)
      && ("datetime" !in fields ==> t.datetime == DefaultDateTime)
      && ("duration_minutes" !in fields ==> t.durationMinutes == DefaultDuration)
    ensures "datetime" !in fields ==>
      LineOf(ElementTask(JObj(fields)).value) ==
        "✅ " + StringOr(fields, "title", DefaultTitle) + " - " + DefaultDateTime +
        " (длительность: " + StringOr(fields, "duration_minutes", DefaultDuration) + " мин.)"
  {
    assert 'T' !in DefaultDateTime;
  }

  /** Error text the speech recogniser returns begins with this. */
  const RecognitionErrorPrefix: string := "Error:"
  const RecognitionFailed: string := "Не удалось распознать речь" + " или произошла ошибка: "
  const TextError: string := "Произошла ошибка при обработке вашего текстового сообщения моделью."
  const VoiceError: string := "Произошла ошибка при обработке" + " вашего голосового сообщения."
  const TextSource: string := "текстового сообщения"
  const VoiceSource: string := "голосового сообщения"

  /**
   * The body of a handler's `try`: extract with the local service, then
   * format. Anything that raises on the way (the prompt's date overflow, the
   * local service's unbound `res`, a malformed task) is caught and answered
   * with `failure`.
   */
  function HandledReply(llm: Option<ChatModel>, i: Instant, text: string, source: string, failure: string): (r: string)
    requires ValidInstant(i) && FourDigitYear(i.date)
    ensures llm.Some? && !PromptDefined(i) ==> r == failure
    ensures llm.Some? && PromptDefined(i) ==>
      r == ReplyOrFailure(LocalLlmService.ExtractTasksFromText(llm, i, text), source, failure)
    ensures llm.None? ==> r == RephraseMessage(source)
    ensures r == failure || (|r| > 0 && r[0] == 'Я')
  {
    if llm.Some? && !PromptDefined(i) then failure
    else ReplyOrFailure(LocalLlmService.ExtractTasksFromText(llm, i, text), source, failure)
  }

  /** The formatted reply, or `failure` when the extraction or the formatting raises. */
  function ReplyOrFailure(data: Option<Reply>, source: string, failure: string): (r: string)
    ensures data.Some? && ExtractedReply(data.value, source).Some? ==> r == ExtractedReply(data.value, source).value
    ensures data.None? || ExtractedReply(data.value, source).None? ==> r == failure
    ensures r == failure || (|r| > 0 && r[0] == 'Я')
    ensures data == Some(NoTasks) ==> r == RephraseMessage(source)
  {
    assert !Truthy(NoTasks["tasks"]);
    if data.None? then failure
    else
      var reply := ExtractedReply(data.value, source);
      if reply.Some? then reply.value else failure
  }

  /** What `handle_text_message` sends back for a message text. */
  function TextReply(text: string, llm: Option<ChatModel>, i: Instant): (r: string)
    requires ValidInstant(i) && FourDigitYear(i.date)
    ensures r == TextError || (|r| > 0 && r[0] == 'Я')
    ensures llm.None? ==> r == RephraseMessage(TextSource)
    ensures llm.Some? && !PromptDefined(i) ==> r == TextError
    ensures llm.Some? && PromptDefined(i) ==>
      r == ReplyOrFailure(LocalLlmService.ExtractTasksFromText(llm, i, text), TextSource, TextError)
  {
    HandledReply(llm, i, text, TextSource, TextError)
  }

  /**
   * End to end: a model that answers the text with a non-empty list of task
   * objects gets exactly the typed formatter's reply for those tasks.
   */
  lemma TextRepliesWithTasks(model: ChatModel, i: Instant, text: string, tasks: seq<Task>)
    requires PromptDefined(i) && tasks != []
    requires Ask(model, i, text) == Parsed(JObj(map["tasks" := JArr(TaskObjects(tasks))]))
    ensures TextReply(text, Some(model), i) == TasksReply(tasks, TextSource)
  {
    RepliesWithTasks(model, i, text, tasks, TextSource, TextError);
  }

  /** When `invoke` itself raises `JSONDecodeError`, the local service raises in turn and the text handler answers with its error. */
  lemma InvokeDecodeErrorGivesTextError(model: ChatModel, i: Instant, text: string)
    requires PromptDefined(i) && Ask(model, i, text) == InvokeRaised(JsonDecodeError)
    ensures TextReply(text, Some(model), i) == TextError
  {
  }

  /** A well-formed non-empty answer passes through the local service and the formatter as the typed reply. */
  lemma RepliesWithTasks(model: ChatModel, i: Instant, text: string, tasks: seq<Task>, source: string, failure: string)
    requires PromptDefined(i) && tasks != []
    requires Ask(model, i, text) == Parsed(JObj(map["tasks" := JArr(TaskObjects(tasks))]))
    ensures HandledReply(Some(model), i, text, source, failure) == TasksReply(tasks, source)
  {
    var data := map["tasks" := JArr(TaskObjects(tasks))];
    PassesThrough(model, i, text, data);
    FormatsTasks(tasks, source, failure);
  }

  /** The local service returns a well-shaped answer unchanged. */
  lemma PassesThrough(model: ChatModel, i: Instant, text: string, data: Reply)
    requires PromptDefined(i) && Ask(model, i, text) == Parsed(JObj(data)) && TasksIsArray(data)
    ensures LocalLlmService.ExtractTasksFromText(Some(model), i, text) == Some(data)
  {
    assert HasTaskArray(JObj(data));
  }

  /** A non-empty list of task objects is formatted as the typed formatter formats the tasks. */
  lemma FormatsTasks(tasks: seq<Task>, source: string, failure: string)
    requires tasks != []
    ensures ReplyOrFailure(Some(map["tasks" := JArr(TaskObjects(tasks))]), source, failure) == TasksReply(tasks, source)
  {
    AgreesWithStoreFormatter(tasks, source);
  }

  /** `transcribed_text and not transcribed_text.startswith("Error:")` */
  predicate ForwardsTranscript(transcript: string) {
    |transcript| > 0 && !(RecognitionErrorPrefix <= transcript)
  }

  /**
   * What `handle_voice_message` sends back once it has a transcript: the
   * formatted extraction when the transcript is forwarded (the handler's
   * generic error if anything raises), otherwise the transcript itself
   * behind a recognition-failure notice, which no forwarded reply begins with.
   */
  function VoiceReply(transcript: string, llm: Option<ChatModel>, i: Instant): (r: string)
    requires ValidInstant(i) && FourDigitYear(i.date)
    ensures !ForwardsTranscript(transcript) ==> r == RecognitionFailed + transcript
    ensures ForwardsTranscript(transcript) ==> r == VoiceError || (|r| > 0 && r[0] == 'Я')
    ensures ForwardsTranscript(transcript) ==> !(RecognitionFailed <= r)
    ensures ForwardsTranscript(transcript) ==> r == HandledReply(llm, i, transcript, VoiceSource, VoiceError)
  {
    if ForwardsTranscript(transcript) then
      var r := HandledReply(llm, i, transcript, VoiceSource, VoiceError);
      assert RecognitionFailed[0] == 'Н' && VoiceError[0] == 'П';
      r
    else RecognitionFailed + transcript
  }

  /**
   * End to end: a forwarded transcript that the model answers with a
   * non-empty list of task objects gets the typed formatter's reply.
   */
  lemma VoiceRepliesWithTasks(model: ChatModel, i: Instant, transcript: string, tasks: seq<Task>)
    requires PromptDefined(i) && tasks != [] && ForwardsTranscript(transcript)
    requires Ask(model, i, transcript) == Parsed(JObj(map["tasks" := JArr(TaskObjects(tasks))]))
    ensures VoiceReply(transcript, Some(model), i) == TasksReply(tasks, VoiceSource)
  {
    RepliesWithTasks(model, i, transcript, tasks, VoiceSource, VoiceError);
  }

  /** Empty transcripts and the recogniser's error texts are never sent for extraction. */
  lemma GateRejectsErrors(transcript: string)
    ensures transcript == "" ==> !ForwardsTranscript(transcript)
    ensures RecognitionErrorPrefix <= transcript ==> !ForwardsTranscript(transcript)
    ensures |transcript| > 0 && transcript[0] != 'E' ==> ForwardsTranscript(transcript)
  {
  }
}
