# Telegram task-extraction bot: the logic around the model call

The bot (trof808/telegram_assistant_bot) takes a text or voice message. It
asks a chat model to turn the message into a list of tasks, then replies
with the tasks it found. This project models the deterministic logic around
that model call and proves properties of it:

- **`ExtractTasksPrompt`** (`extract_tasks_prompt`): the system prompt. It
  takes a reference instant. It resolves today, tomorrow and the day after
  tomorrow with Gregorian arithmetic (module **`Calendar`**: Python's
  `toordinal`, `timedelta` addition, `strftime`) and translates the weekday.
  It then fills a fixed template, kept as a sequence of literal pieces and
  holes.
- **`Llm`**: the shared vocabulary:
  - decoded JSON values;
  - the outcome of one model round trip: `invoke` raised, decoding the
    content raised, or the content decoded to a value. For each of the two
    raises it records the exception class the `except` clauses tell apart
    (`JSONDecodeError` or any other);
  - the two chat messages sent;
  - the reply dictionaries.
- **`GigaChatService`**, **`LocalLlmService`** and the agent's own
  `extract_tasks_from_text` in **`TaskManagementAgent`**: three classifiers
  that turn an outcome into a `{"tasks": …}` dictionary. Each is written
  out separately, and lemmas relate them.
- **`TaskManagementAgent`**: `add_tasks_tool`, which validates every
  element as a `Task` (all or nothing) and then hands the list to the
  store, plus the two pass-through tools.
- **`GoogleCalendar`**: the `Task` record and the typed
  `format_tasks_for_reply`. It is an imperative loop, proved against a
  specification function. Also the three store stubs.
- **`BotMain`** (app/main.py):
  - the dictionary-based `format_tasks_for_reply`, also a loop proved
    against a specification function;
  - the replies of the text and voice handlers;
  - the voice-transcript gate.

Strings are `seq<char>`. The wall clock, the model and the speech
recogniser are parameters:
- the reference instant is an `Instant` (date, hour, minute);
- a chat model is a function from the messages to a `ModelOutcome`;
- `LocalLlmService` takes the client as an `Option`;
- the transcript is a string.

The pydantic `Task(**task)` validation is a parameter of type
`Json -> Result<Task, string>`. `ChecksShape` pins it to the schema
"object whose three fields are strings".

## Model

| member | source | states |
|---|---|---|
| Calendar.DaysInMonth | app/prompts/extract_tasks.py:29-30 | Month lengths are between 28 and 31; February has 29 days exactly in Gregorian leap years. |
| Calendar.MaxOrdinalIsLastDay | app/prompts/extract_tasks.py:29-30 | The largest date Python represents, 9999-12-31, has ordinal 3652059, the end of year 9999. |
| Calendar.DaysBeforeNextYear | app/prompts/extract_tasks.py:29-30 | The days before year y+1 are the days before year y plus the length of year y. |
| Calendar.Ordinal | app/prompts/extract_tasks.py:29-30 | `date.toordinal()`: days before the year, plus days before the month, plus the day. Its meaning is fixed by OrdinalWithinYear (within the date's own year), OrdinalInjective (one-to-one) and AddDays (adding n days adds n to it). |
| Calendar.OrdinalWithinYear | app/prompts/extract_tasks.py:29-30 | A date's ordinal lies strictly after the days before its year and no later than the end of that year. |
| Calendar.OrdinalInjective | app/prompts/extract_tasks.py:29-30 | Two valid dates with the same ordinal are equal. |
| Calendar.RepresentableUpToYear9999 | app/prompts/extract_tasks.py:29-30 | A valid date's ordinal is at most that of 9999-12-31 exactly when its year is at most 9999. |
| Calendar.Successor | app/prompts/extract_tasks.py:29 | The successor of a valid date is a valid date whose ordinal is one more (month end, year end and leap-day rollover). |
| Calendar.AddDays | app/prompts/extract_tasks.py:29-30 | `d + timedelta(days=n)` is a valid date whose ordinal is n more. |
| Calendar.AddDaysUnique | app/prompts/extract_tasks.py:29-30 | AddDays(d, n) is the one valid date whose ordinal is n more than d's, in both directions. |
| Calendar.AddDaysCompose | app/prompts/extract_tasks.py:29-30 | Adding m days and then n days equals adding m + n days. |
| Calendar.AddDaysToInstant | app/prompts/extract_tasks.py:29-30 | Adding whole days keeps the hour and minute and advances the date's ordinal by the same count. |
| Calendar.Weekday | app/prompts/extract_tasks.py:13 | The weekday index, Monday = 0, is between 0 and 6. |
| Calendar.WeekdayOfSuccessor | app/prompts/extract_tasks.py:13 | The next day's weekday is the following one, modulo 7. |
| Calendar.WeekdayName | app/prompts/extract_tasks.py:13 | `%A` gives one of the seven English weekday names. |
| Calendar.Digits | app/prompts/extract_tasks.py:11-12 | Zero-padded decimal rendering gives exactly w digit characters. |
| Calendar.ParseDigitsOfDigits | app/prompts/extract_tasks.py:11-12 | Reading back a zero-padded rendering gives the number. |
| Calendar.FormatDate | app/prompts/extract_tasks.py:11 | `%Y-%m-%d` has 10 characters with dashes at positions 4 and 7. |
| Calendar.FormatTime | app/prompts/extract_tasks.py:12 | `%H:%M` has 5 characters with a colon at position 2. |
| Calendar.ParseFormatDate | app/prompts/extract_tasks.py:11 | The date text reads back as the date. |
| Calendar.ParseFormatTime | app/prompts/extract_tasks.py:12 | The clock text reads back as the hour and minute. |
| Calendar.FormatDateInjective | app/prompts/extract_tasks.py:11 | Two four-digit-year dates render the same exactly when they are equal. |
| Calendar.YearStaysFourDigit | app/prompts/extract_tasks.py:29-30 | A date between a four-digit-year date and the largest date also has a four-digit year. |
| Calendar.LeapYearRollovers | app/prompts/extract_tasks.py:29 | Successors across February in leap, common, century and 400-year years, across a year end and across a 30-day month. |
| ExtractTasksPrompt.TranslateWeekday | app/prompts/extract_tasks.py:25 | A name in the dictionary gets its Russian translation; any other string comes back unchanged. |
| ExtractTasksPrompt.WeekdayTranslationIsBijective | app/prompts/extract_tasks.py:16-24 | The dictionary's keys are exactly the seven English names; different names translate differently; no name translates to itself. |
| ExtractTasksPrompt.WeekdayAlwaysTranslated | app/prompts/extract_tasks.py:13-25 | The weekday of every valid date is in the dictionary, so the fallback is never taken. |
| ExtractTasksPrompt.RenderIntro | app/prompts/extract_tasks.py:32-38 | The opening and header block renders as its text with today, the clock time and the Russian weekday substituted. |
| ExtractTasksPrompt.HolesIntro | app/prompts/extract_tasks.py:32-38 | The opening block has one hole each for today, the clock and the weekday. |
| ExtractTasksPrompt.RenderRules | app/prompts/extract_tasks.py:39-43 | The relative-date rules render with tomorrow, the day after tomorrow and today substituted. |
| ExtractTasksPrompt.HolesRules | app/prompts/extract_tasks.py:39-43 | Hole counts of the rules block. |
| ExtractTasksPrompt.RenderAlgorithm | app/prompts/extract_tasks.py:44-50 | The algorithm block renders with its dates substituted. |
| ExtractTasksPrompt.HolesAlgorithm | app/prompts/extract_tasks.py:44-50 | Hole counts of the algorithm block. |
| ExtractTasksPrompt.RenderTimeExamples | app/prompts/extract_tasks.py:51-59 | The time-conversion examples render as fixed text. |
| ExtractTasksPrompt.HolesTimeExamples | app/prompts/extract_tasks.py:51-59 | The time examples have no holes. |
| ExtractTasksPrompt.RenderTestExamples | app/prompts/extract_tasks.py:60-66 | The two worked examples render with tomorrow and today in their datetimes. |
| ExtractTasksPrompt.HolesTestExamples | app/prompts/extract_tasks.py:60-66 | Hole counts of the worked examples. |
| ExtractTasksPrompt.RenderImportant | app/prompts/extract_tasks.py:67-72 | The "ВАЖНО" block renders as fixed text, including the empty answer. |
| ExtractTasksPrompt.HolesImportant | app/prompts/extract_tasks.py:67-72 | The "ВАЖНО" block has no holes. |
| ExtractTasksPrompt.RenderChecklist | app/prompts/extract_tasks.py:73-78 | The checklist renders with tomorrow, today and the day after tomorrow. |
| ExtractTasksPrompt.HolesChecklist | app/prompts/extract_tasks.py:73-78 | Hole counts of the checklist. |
| ExtractTasksPrompt.RenderReminder | app/prompts/extract_tasks.py:79-81 | The closing reminder renders with tomorrow and today. |
| ExtractTasksPrompt.HolesReminder | app/prompts/extract_tasks.py:79-81 | Hole counts of the closing reminder. |
| ExtractTasksPrompt.ResolvedDates | app/prompts/extract_tasks.py:11-13 | "Today" reads back as the reference date, "tomorrow" as its successor, "day after tomorrow" as the successor of that, the clock as the reference hour and minute, and the weekday as the translated weekday name. |
| ExtractTasksPrompt.TomorrowIsNextOrdinal | app/prompts/extract_tasks.py:29 | The tomorrow text is a date's rendering exactly when that date's ordinal is one more than the reference date's. |
| ExtractTasksPrompt.PromptDefined | app/prompts/extract_tasks.py:29-30 | The instants the builder handles without raising: a valid date-time with a four-digit year whose day after tomorrow Python can still represent. |
| ExtractTasksPrompt.PromptDefinedIffInRange | app/prompts/extract_tasks.py:29-30 | For a four-digit reference year, the builder is defined exactly when the day after tomorrow falls in year 9999 or earlier; past that, `timedelta` addition raises `OverflowError`. |
| ExtractTasksPrompt.PromptBindings | app/prompts/extract_tasks.py:10-30 | The five values substituted into the template: today, the clock, the Russian weekday, tomorrow and the day after. ResolvedDates and WeekdayAlwaysTranslated state what each reads back as. |
| ExtractTasksPrompt.Prompt | app/prompts/extract_tasks.py:6-81 | `extract_tasks_prompt()`: the template rendered with those bindings. PromptBlocks, TemplateHoleCounts and the Prompt* lemmas state its content. |
| ExtractTasksPrompt.TemplateHoles | app/prompts/extract_tasks.py:32-81 | The template's holes for a slot are the sum over its eight blocks. |
| ExtractTasksPrompt.TemplateHoleCounts | app/prompts/extract_tasks.py:32-81 | Tomorrow is substituted 5 times, the day after tomorrow 3, today 7, the clock and the weekday once each. |
| ExtractTasksPrompt.PromptBlocks | app/prompts/extract_tasks.py:32-81 | The prompt is the eight blocks rendered one after another. |
| ExtractTasksPrompt.PromptHeader | app/prompts/extract_tasks.py:32-34 | The prompt begins with the opening sentence and then `ТЕКУЩАЯ ДАТА И ВРЕМЯ: {today} {HH:MM} ({weekday_ru})`. |
| ExtractTasksPrompt.PromptStatesRules | app/prompts/extract_tasks.py:40-42 | The prompt contains the rules: "завтра" is tomorrow (not today), "послезавтра" is the day after, "сегодня" is today. |
| ExtractTasksPrompt.PromptExampleUsesTomorrow | app/prompts/extract_tasks.py:62 | The first worked example dates its task at tomorrow, 09:00. |
| ExtractTasksPrompt.PromptNamesEmptyAnswer | app/prompts/extract_tasks.py:67-72 | The doubled braces come out single: the prompt contains the literal `{"tasks": []}`. |
| ExtractTasksPrompt.PromptEndsWithReminder | app/prompts/extract_tasks.py:79-81 | The prompt ends with the reminder that tomorrow is not today, then the hand-over line. |
| ExtractTasksPrompt.SaturdayDates | app/prompts/extract_tasks.py:13-30 | 2024-07-20 is a Saturday; the next two days are 2024-07-21 and 2024-07-22. |
| ExtractTasksPrompt.SaturdayRenderings | app/prompts/extract_tasks.py:11-12 | Those dates and 12:00 render zero-padded. |
| ExtractTasksPrompt.SaturdayScenario | app/prompts/extract_tasks.py:10-30 | At Saturday 2024-07-20 12:00 the bindings are 2024-07-20, 12:00, "суббота", 2024-07-21, 2024-07-22. |
| Llm.ExtractionMessages | app/services/gigachat_service.py:33-36 | Two messages: the system prompt first, then the user's text unchanged. |
| Llm.WithError | app/services/gigachat_service.py:45 | `{"tasks": [], "error": e}`: exactly those two keys, an empty array and the error string. |
| Llm.HasTaskArray | app/services/gigachat_service.py:42 | The shape test shared by the three classifiers: an object with a "tasks" key whose value is an array. WrongShapes gives its three failing cases. |
| GigaChatService.ClassifyReply | app/services/gigachat_service.py:38-50 | A tasks array always. A well-shaped reply is returned unchanged. A wrong shape gives "Invalid overall structure". A `JSONDecodeError`, whether `invoke` or the decoder raised it, gives "JSONDecodeError". Any other exception gives bare `{"tasks": []}`. |
| GigaChatService.ExtractTasksFromText | app/services/gigachat_service.py:33-50 | The same classification, for the reply of the model to the two extraction messages. |
| GigaChatService.WrongShapes | app/services/gigachat_service.py:42-45 | Not an object, no "tasks" key, or a non-array "tasks": each gives the structure error. |
| GigaChatService.FailuresCarryEmptyTasks | app/services/gigachat_service.py:44-50 | Every failure has an empty tasks array and at most an "error" key besides it. The "error" key is missing exactly when the exception raised was not a `JSONDecodeError`. |
| LocalLlmService.ClassifyReply | app/services/local_llm_service.py:48-64 | The method raises exactly when `invoke` itself raises `JSONDecodeError`: its handler reads the unbound `res`. Otherwise a well-shaped reply is returned unchanged, and a wrong shape or any other exception gives `{"tasks": []}`. |
| LocalLlmService.ExtractTasksFromText | app/services/local_llm_service.py:39-64 | No client gives `{"tasks": []}` without building the prompt. Otherwise the model's reply to the two messages is classified as above, and the method raises exactly when the call raised `JSONDecodeError`. |
| LocalLlmService.AgreesWithGigaChat | app/services/local_llm_service.py:48-64 | Whenever the local service returns, its "tasks" equals the GigaChat classifier's. The results are equal on a well-shaped reply and otherwise differ only by the removed "error" key. Where the local service raises, GigaChat reports "JSONDecodeError". |
| LocalLlmService.FailuresLookLikeEmptyAnswer | app/services/local_llm_service.py:55-64 | Every failure the method catches equals the classification of a model that answered `{"tasks": []}` and has no "error" key. |
| LocalLlmService.MissingClientLooksLikeEmptyAnswer | app/services/local_llm_service.py:39-41 | A missing client gives the same result as a genuine empty answer. |
| GoogleCalendar.FormatDateTime | app/services/google_calendar.py:22-26 | A datetime without exactly one 'T' is shown verbatim. |
| GoogleCalendar.RewriteAtTheT | app/services/google_calendar.py:24-26 | With exactly one 'T', at index k, the text becomes `dt[..k] + " в " + dt[k+1..]`, which differs from the input. |
| GoogleCalendar.SpaceSeparatedShownVerbatim | app/services/google_calendar.py:22-26 | A `YYYY-MM-DD HH:MM` datetime, the format the prompt asks for, passes unchanged. |
| GoogleCalendar.TaskLines | app/services/google_calendar.py:17-30 | One line per task in input order: `✅ {title} - {formatted_dt} (длительность: {duration} мин.)`. |
| GoogleCalendar.TasksReply | app/services/google_calendar.py:14-33 | The empty list gives only the "…или получил неожиданный ответ от сервиса задач." message. A non-empty list starts with the header. |
| GoogleCalendar.FormatTasksForReply | app/services/google_calendar.py:14-33 | The append loop returns exactly TasksReply: the header and the task lines joined by "\n", or the fallback. |
| GoogleCalendar.ReplyLines | app/services/google_calendar.py:16-31 | Without newlines in the source or the fields, the reply splits into the header and one line per task, in order: len(tasks) + 1 lines. |
| GoogleCalendar.FormattedKeepsOut | app/services/google_calendar.py:22-26 | The rewrite introduces no character except those of " в ". |
| GoogleCalendar.AddTask | app/services/google_calendar.py:37-51 | The only key is "message", bound to the formatter's text for "текстового сообщения"; with no tasks, that is the fallback. |
| GoogleCalendar.GetTasks | app/services/google_calendar.py:53-58 | Always `{"tasks": [], "message": "Показ задач (пока не реализовано)"}`. |
| GoogleCalendar.DeleteTask | app/services/google_calendar.py:60-65 | Always `{"message": "Задача удалена (пока не реализовано)"}`. |
| GoogleCalendar.StubsIgnoreArgument | app/services/google_calendar.py:53-65 | Neither stub's answer depends on its argument. |
| TaskManagementAgent.ClassifyReply | app/agents/task_management_agent.py:180-192 | The agent's own classification, with the same cases, exception classes and error strings as the GigaChat service. |
| TaskManagementAgent.AgreesWithGigaChat | app/agents/task_management_agent.py:184-192 | On every outcome the agent's classification equals the GigaChat service's. |
| TaskManagementAgent.ExtractTasksFromText | app/agents/task_management_agent.py:174-192 | The same classification for the model's reply to the two extraction messages. |
| TaskManagementAgent.CoerceAll | app/agents/task_management_agent.py:56 | Succeeds exactly when every element coerces, giving the tasks in order. Otherwise it fails with the error of the first failing element, every element before it having coerced. |
| TaskManagementAgent.StoreExtracted | app/agents/task_management_agent.py:56-60 | The reply is either the store's bare "message" or an error dictionary with an empty tasks array. |
| TaskManagementAgent.AddTasksTool | app/agents/task_management_agent.py:38-60 | No exception escapes. A date overflow in the prompt gives the prefixed "date value out of range" error; otherwise the extraction is validated and stored. |
| TaskManagementAgent.AllCoercedReachStore | app/agents/task_management_agent.py:56-57 | If every element coerces, the store receives all the tasks in order and its reply is returned. |
| TaskManagementAgent.FirstFailureReported | app/agents/task_management_agent.py:56-60 | If element k is the first that fails to coerce, the store is not called and the reply is the prefixed error of element k. |
| TaskManagementAgent.TasksOf | app/services/google_calendar.py:8-11 | A list of task objects read field by field, in order. |
| TaskManagementAgent.ShapeDecidesStore | app/agents/task_management_agent.py:56-57 | With schema validation, the store is reached exactly when every element is an object with string title, datetime and duration_minutes, and it then receives those tasks. |
| TaskManagementAgent.EmptyExtractionGivesFallback | app/agents/task_management_agent.py:54-57 | An empty extraction reaches the store with no tasks: the reply is the fallback message, and no "error" survives. |
| TaskManagementAgent.FailedExtractionGivesFallback | app/agents/task_management_agent.py:54-57 | Every failed extraction, with or without an "error" string, ends as the fallback message. |
| TaskManagementAgent.GetTasksTool | app/agents/task_management_agent.py:76 | The store's listing, unchanged. |
| TaskManagementAgent.DeleteTaskTool | app/agents/task_management_agent.py:92 | The store's answer for the description passed through. |
| BotMain.NatDecimalRoundTrip | app/main.py:48-50 | `str(n)` of a number reads back as n and begins with '0' only for 0. |
| BotMain.NumericDurationShown | app/main.py:39-48 | A natural number given as the duration is shown as its decimal digits, which read back as the number. |
| BotMain.ScalarText | app/main.py:48-50 | `str()` of a scalar: a string as itself, an integer in decimal with a leading "-" when negative, "True"/"False", "None". Containers are not modelled. |
| BotMain.ElementTask | app/main.py:37-43 | A non-object element raises. An object whose title, datetime and duration are strings or absent reads as those strings, each absent one as its default, whatever other keys it has. A present datetime that is not a string raises. With a string or absent datetime, reading succeeds exactly when title and duration are scalars or absent, and those are shown as `str()` gives them. |
| BotMain.ElementTasksReadEach | app/main.py:37-50 | The elements are read in order, and reading succeeds exactly when every element is read; then the k-th task is the k-th element's. |
| BotMain.ExtractedReply | app/main.py:32-55 | No "tasks" gives the "неожиданный ответ" message. Falsy tasks give the rephrase message. Truthy non-list tasks raise. Otherwise the header comes first, and every reply begins with "Я". |
| BotMain.FormatTasksForReply | app/main.py:32-55 | The loop that appends one line per element returns exactly ExtractedReply, raising at the first bad element. |
| BotMain.FormatElements | app/main.py:36-51 | The loop that appends one line per element returns the joined lines of all tasks read, or raises at the first bad element. |
| BotMain.ReadStep | app/main.py:37-50 | One more element read extends the tasks read and the lines appended by one each. |
| BotMain.PrefixFailure | app/main.py:37-40 | A failing element makes the whole reading fail. |
| BotMain.AllRead | app/main.py:36-51 | Once every element is read, the reply is the header and the task lines joined by "\n". |
| BotMain.TaskObjects | app/services/google_calendar.py:8-11 | Tasks as the objects the prompt asks for, in order. |
| BotMain.AgreesWithStoreFormatter | app/main.py:32-55 | On well-formed non-empty task objects, the dictionary formatter's text equals the typed formatter's. On an empty list the two fall back to different messages. |
| BotMain.OneLinePerElement | app/main.py:36-51 | Without newlines in the texts, the reply is the header and one line per element: len(tasks) + 1 lines. |
| BotMain.MissingFieldsDefault | app/main.py:37-49 | In any object whose fields are strings or absent, each missing field shows as "Без названия", "не указано" or "не указана"; a missing datetime gives the line with "не указано" unrewritten between the title and the duration. |
| BotMain.HandledReply | app/main.py:67-83 | An overflowing prompt gives the handler's error text. A missing client gives the rephrase message. Otherwise the reply is the local service's extraction formatted, with the error text when the service or the formatter raises. Every reply is the error text or begins with "Я". |
| BotMain.ReplyOrFailure | app/main.py:74-83 | The formatted reply when the extraction and the formatting return, otherwise the handler's error text; so either the error text or a reply beginning with "Я". The bare `{"tasks": []}` is met with the rephrase message. |
| BotMain.TextReply | app/main.py:67-83 | The text handler answers with its error text or with a formatted reply: the rephrase message without a client, the error text on an overflowing prompt, and otherwise the local extraction formatted for "текстового сообщения". |
| BotMain.TextRepliesWithTasks | app/main.py:67-83 | End to end: a model that answers with a non-empty list of task objects gets exactly the typed formatter's reply for those tasks. |
| BotMain.InvokeDecodeErrorGivesTextError | app/main.py:67-83 | When `invoke` raises `JSONDecodeError`, the escaping `UnboundLocalError` is caught and the text handler's error text is sent. |
| BotMain.RepliesWithTasks | app/main.py:74-83 | Either handler turns a well-formed non-empty answer into the typed formatter's reply for its source. |
| BotMain.VoiceReply | app/main.py:106-126 | A transcript that is not forwarded is echoed behind the recognition-failure notice. A forwarded one is handled as a text is, with the voice source and error text, and never begins with that notice. |
| BotMain.VoiceRepliesWithTasks | app/main.py:106-120 | End to end: a forwarded transcript answered with a non-empty list of task objects gets the typed formatter's reply for "голосового сообщения". |
| BotMain.ForwardsTranscript | app/main.py:106 | The voice gate: a non-empty transcript that does not start with "Error:". GateRejectsErrors states its cases. |
| BotMain.GateRejectsErrors | app/main.py:106 | Empty transcripts and "Error:" texts are not forwarded; a non-empty text not starting with 'E' is. |

## Left out

- The wall clock (`datetime.now()`), the GigaChat and Ollama clients, and `json.loads` are not modelled. The instant and the model outcome are parameters.
- Floating-point JSON numbers and pydantic's validation internals are not modelled. The validation is a parameter that yields a task or an error text.
- Seconds and microseconds of the reference instant are not modelled because no output depends on them.
- The LangGraph agent wiring (`_create_agent`, `process_user_request`) is not modelled. It is dispatch into a library.
- Not modelled: the Telegram handlers' I/O, `start_command`, polling and shutdown, the voice file download and cleanup, logging and the module singletons. What the handlers reply is modelled by `BotMain.HandledReply`, `BotMain.TextReply` and `BotMain.VoiceReply`.
- app/services/speech_to_text_service.py, dev.py and app/config.py are not part of this model. The transcript is an input string.
- ExtractTasksPrompt.Prompt: reference dates before year 1000 are excluded. `%Y` padding for them depends on the platform.
- GigaChatService.ExtractTasksFromText: requires the prompt to be defined. There, the day-after-tomorrow overflow past 9999-12-31 happens outside the `try` and propagates to the caller. The same goes for LocalLlmService.ExtractTasksFromText and TaskManagementAgent.ExtractTasksFromText. The callers that catch it are modelled: TaskManagementAgent.AddTasksTool and BotMain.HandledReply.
- BotMain.ScalarText: a list- or dict-valued title or duration is treated as raising; Python would print its repr.
- BotMain.ElementTask: a list- or dict-valued datetime is treated as raising; Python would test membership of "T" in it.
- GoogleCalendar.AddTask: the logging loop over the tasks is not modelled; only the returned dictionary is.
- Dropping malformed task elements one at a time is not modelled, because the code never does it. One malformed element fails the whole list:
  - the three classifiers pass a well-shaped reply through without looking at its elements;
  - the text and voice handlers answer with their error text when any element cannot be read;
  - `add_tasks_tool` rejects the whole list when any element fails validation.
