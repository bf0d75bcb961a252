/**
 * The task store stub (app/services/google_calendar.py): the validated
 * `Task` record, the reply formatter, and the three store operations,
 * none of which keeps any state.
 */
module GoogleCalendar {

  import opened Calendar
  import opened Strings
  import opened Llm

  /** A validated task: three string fields. */
  datatype Task = Task(title: string, datetime: string, durationMinutes: string)

  /** `"YYYY-MM-DDTHH:MM"` shown as `"YYYY-MM-DD в HH:MM"`; anything else verbatim. */
  function FormatDateTime(dt: string): (r: string)
    ensures Count(dt, 'T') != 1 ==> r == dt
  {
    if 'T' in dt && |Split(dt, 'T')| == 2 then
      var parts := Split(dt, 'T');
      parts[0] + " в " + parts[1]
    else dt
  }

  /** The one `'T'` of a datetime is replaced by `" в "`, so the text changes exactly when it has one `'T'`. */
  lemma RewriteAtTheT(dt: string, k: int)
    requires 0 <= k < |dt| && dt[k] == 'T' && Count(dt, 'T') == 1
    ensures FormatDateTime(dt) == dt[..k] + " в " + dt[k + 1..]
    ensures FormatDateTime(dt) != dt
  {
    SplitAtOnly(dt, 'T', k);
    assert |FormatDateTime(dt)| == |dt| + 2;
  }

  /** A `"YYYY-MM-DD HH:MM"` datetime, as the prompt asks for, is shown unchanged. */
  lemma SpaceSeparatedShownVerbatim(d: Date, hour: int, minute: int)
    requires ValidDate(d) && FourDigitYear(d) && 0 <= hour < 24 && 0 <= minute < 60
    ensures var dt := FormatDate(d) + " " + FormatTime(hour, minute);
      FormatDateTime(dt) == dt
  {
    var dt := FormatDate(d) + " " + FormatTime(hour, minute);
    assert 'T' !in Digits(d.year, 4) && 'T' !in Digits(d.month, 2) && 'T' !in Digits(d.day, 2);
    assert 'T' !in Digits(hour, 2) && 'T' !in Digits(minute, 2);
    assert 'T' !in dt;
  }

  /** `f"✅ {title} - {formatted_dt} (длительность: {duration} мин.)"` */
  function TaskLine(title: string, dt: string, duration: string): string {
    "✅ " + title + " - " + FormatDateTime(dt) + " (длительность: " + duration + " мин.)"
  }

  function Header(source: string): string {
    "Я извлек следующие задачи из вашего " + source + ":"
  }

  function NoTasksMessage(source: string): string {
    "Я не смог извлечь задачи из вашего " + source + " или получил неожиданный ответ от сервиса задач."
  }

  function LineOf(t: Task): string {
    TaskLine(t.title, t.datetime, t.durationMinutes)
  }

  /** One line per task, in order. */
  function TaskLines(tasks: seq<Task>): (lines: seq<string>)
    ensures |lines| == |tasks|
    ensures forall k :: 0 <= k < |tasks| ==> lines[k] == LineOf(tasks[k])
  {
    seq(|tasks|, k requires 0 <= k < |tasks| => LineOf(tasks[k]))
  }

  lemma TaskLinesSnoc(tasks: seq<Task>, t: Task)
    ensures TaskLines(tasks + [t]) == TaskLines(tasks) + [LineOf(t)]
  {
    assert forall k :: 0 <= k < |tasks| ==> (tasks + [t])[k] == tasks[k];
  }

  lemma TaskLinesStep(tasks: seq<Task>, n: int)
    requires 0 <= n < |tasks|
    ensures TaskLines(tasks[..n + 1]) == TaskLines(tasks[..n]) + [LineOf(tasks[n])]
  {
    assert tasks[..n + 1] == tasks[..n] + [tasks[n]];
    TaskLinesSnoc(tasks[..n], tasks[n]);
  }

  /** What `format_tasks_for_reply(tasks, source_type)` returns. */
  function TasksReply(tasks: seq<Task>, source: string): (r: string)
    ensures tasks == [] ==> r == NoTasksMessage(source)
    ensures tasks != [] ==> Header(source) <= r
  {
    if |tasks| > 0 then
      var lines := [Header(source)] + TaskLines(tasks);
      JoinStartsWithFirst(lines, "\n");
      Join(lines, "\n")
    else NoTasksMessage(source)
  }

  /** `format_tasks_for_reply`: the header, then one line per task appended in a loop, joined by newlines. */
  method FormatTasksForReply(tasks: seq<Task>, source: string) returns (reply: string)
    ensures reply == TasksReply(tasks, source)
  {
    if |tasks| > 0 {
      var responseLines := [Header(source)];
      for n := 0 to |tasks|
        invariant responseLines == [Header(source)] + TaskLines(tasks[..n])
      {
        var task := tasks[n];
        var formattedDt := task.datetime;
        if 'T' in task.datetime && |Split(task.datetime, 'T')| == 2 {
          var parts := Split(task.datetime, 'T');
          formattedDt := parts[0] + " в " + parts[1];
        }
        assert formattedDt == FormatDateTime(task.datetime);
        var line := "✅ " + task.title + " - " + formattedDt + " (длительность: " + task.durationMinutes + " мин.)";
        assert line == LineOf(task);
        TaskLinesStep(tasks, n);
        responseLines := responseLines + [line];
      }
      assert tasks[..|tasks|] == tasks;
      reply := Join(responseLines, "\n");
    } else {
      reply := NoTasksMessage(source);
    }
  }

  predicate NoNewline(s: string) {
    '\n' !in s
  }

  /**
   * When no field and no source contains a newline, the reply splits into
   * exactly the header and one line per task, in input order: len(tasks) + 1
   * lines.
   */
  lemma ReplyLines(tasks: seq<Task>, source: string)
    requires tasks != [] && NoNewline(source)
    requires forall k :: 0 <= k < |tasks| ==>
      NoNewline(tasks[k].title) && NoNewline(tasks[k].datetime) && NoNewline(tasks[k].durationMinutes)
    ensures Split(TasksReply(tasks, source), '\n') == [Header(source)] + TaskLines(tasks)
    ensures |Split(TasksReply(tasks, source), '\n')| == |tasks| + 1
  {
    var lines := [Header(source)] + TaskLines(tasks);
    HeaderFree(source);
    LinesFree(tasks);
    assert forall k :: 0 <= k < |lines| ==> NoNewline(lines[k]);
    assert TasksReply(tasks, source) == Join(lines, "\n");
    SplitJoin(lines, '\n');
  }

  /** No task line holds a newline when no field does. */
  lemma LinesFree(tasks: seq<Task>)
    requires forall k :: 0 <= k < |tasks| ==>
      NoNewline(tasks[k].title) && NoNewline(tasks[k].datetime) && NoNewline(tasks[k].durationMinutes)
    ensures forall k :: 0 <= k < |tasks| ==> NoNewline(TaskLines(tasks)[k])
  {
    forall k | 0 <= k < |tasks|
      ensures NoNewline(TaskLines(tasks)[k])
    {
      LineFree(tasks[k]);
    }
  }

  lemma HeaderFree(source: string)
    requires NoNewline(source)
    ensures NoNewline(Header(source))
  {
  }

  /** A task line holds a newline only if one of its fields does. */
  lemma LineFree(t: Task)
    requires NoNewline(t.title) && NoNewline(t.datetime) && NoNewline(t.durationMinutes)
    ensures NoNewline(LineOf(t))
  {
    FormattedKeepsOut(t.datetime, '\n');
  }

  /** Formatting a datetime adds no character but those of `" в "`. */
  lemma FormattedKeepsOut(dt: string, c: char)
    requires c !in dt && c !in " в "
    ensures c !in FormatDateTime(dt)
  {
    if Count(dt, 'T') == 1 {
      var k := FirstIndexOf(dt, 'T');
      RewriteAtTheT(dt, k);
      assert c !in dt[..k] && c !in dt[k + 1..];
    }
  }

  /** The index of the first c in s. */
  function FirstIndexOf(s: string, c: char): (k: int)
    requires c in s
    ensures 0 <= k < |s| && s[k] == c
    ensures forall j :: 0 <= j < k ==> s[j] != c
  {
    if s[0] == c then 0 else 1 + FirstIndexOf(s[1..], c)
  }

  /** `add_task(tasks)`: only a `"message"`, the formatted reply for a text message. */
  function AddTask(tasks: seq<Task>): (r: Reply)
    ensures r.Keys == {"message"}
    ensures tasks == [] ==> r["message"] == JStr(NoTasksMessage("текстового сообщения"))
    ensures r["message"] == JStr(TasksReply(tasks, "текстового сообщения"))
  {
    map["message" := JStr(TasksReply(tasks, "текстового сообщения"))]
  }

  const ListingNotImplemented: string := "Показ задач (пока не реализовано)"
  const DeletionNotImplemented: string := "Задача удалена (пока не реализовано)"

  /** `get_tasks(text)`: a fixed answer, whatever the query. */
  function GetTasks(text: string): (r: Reply)
    ensures r.Keys == {"tasks", "message"}
    ensures r["tasks"] == JArr([]) && r["message"] == JStr(ListingNotImplemented)
  {
    map["tasks" := JArr([]), "message" := JStr(ListingNotImplemented)]
  }

  /** `delete_task(text)`: a fixed answer, whatever the description. */
  function DeleteTask(text: string): (r: Reply)
    ensures r.Keys == {"message"} && r["message"] == JStr(DeletionNotImplemented)
  {
    map["message" := JStr(DeletionNotImplemented)]
  }

  /** Neither stub looks at its argument. */
  lemma StubsIgnoreArgument(a: string, b: string)
    ensures GetTasks(a) == GetTasks(b) && DeleteTask(a) == DeleteTask(b)
  {
  }
}
