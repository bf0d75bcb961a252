/**
 * The system prompt sent with every extraction request
 * (app/prompts/extract_tasks.py). The reference instant is a parameter
 * instead of the wall clock; the resolved dates are that instant plus 0, 1
 * and 2 days, rendered `YYYY-MM-DD`, and are substituted into a fixed
 * template. The template is kept as a sequence of literal pieces and holes;
 * a doubled brace of the f-string is already a single brace in a piece.
 */
module ExtractTasksPrompt {

  import opened Wrappers
  import opened Calendar
  import opened Strings

  /** The seven-entry weekday dictionary. */
  const WeekdayTranslation: map<string, string> := map[
    "Monday" := "понедельник",
    "Tuesday" := "вторник",
    "Wednesday" := "среда",
    "Thursday" := "четверг",
    "Friday" := "пятница",
    "Saturday" := "суббота",
    "Sunday" := "воскресенье"
  ]

  /** `weekday_translation.get(name, name)` */
  function TranslateWeekday(name: string): (ru: string)
    ensures name in WeekdayTranslation ==> ru == WeekdayTranslation[name]
    ensures name !in WeekdayTranslation ==> ru == name
  {
    if name in WeekdayTranslation then WeekdayTranslation[name] else name
  }

  /** The dictionary covers exactly the seven English names and is one-to-one. */
  lemma WeekdayTranslationIsBijective()
    ensures WeekdayTranslation.Keys == set k | 0 <= k < 7 :: WeekdayNames[k]
    ensures forall a, b :: a in WeekdayTranslation && b in WeekdayTranslation && a != b ==>
              TranslateWeekday(a) != TranslateWeekday(b)
    ensures forall a :: a in WeekdayTranslation ==> TranslateWeekday(a) != a
  {
    var ks := set k | 0 <= k < 7 :: WeekdayNames[k];
    assert WeekdayNames[0] in ks && WeekdayNames[1] in ks && WeekdayNames[2] in ks && WeekdayNames[3] in ks;
    assert WeekdayNames[4] in ks && WeekdayNames[5] in ks && WeekdayNames[6] in ks;
  }

  /** The weekday of any date is translated, never passed through. */
  lemma WeekdayAlwaysTranslated(d: Date)
    requires ValidDate(d)
    ensures WeekdayName(d) in WeekdayTranslation
    ensures TranslateWeekday(WeekdayName(d)) in WeekdayTranslation.Values
  {
    var w := Weekday(d);
    assert WeekdayName(d) == WeekdayNames[w];
    assert WeekdayTranslation[WeekdayNames[w]] in WeekdayTranslation.Values;
  }

  datatype Slot = Today | ClockTime | WeekdayRu | Tomorrow | DayAfterTomorrow

  datatype Piece = Text(text: string) | Hole(slot: Slot)

  /** The values the template's holes are filled with. */
  datatype Bindings = Bindings(
    today: string, clockTime: string, weekdayRu: string,
    tomorrow: string, dayAfterTomorrow: string)

  function Fill(s: Slot, b: Bindings): string {
    match s
    case Today => b.today
    case ClockTime => b.clockTime
    case WeekdayRu => b.weekdayRu
    case Tomorrow => b.tomorrow
    case DayAfterTomorrow => b.dayAfterTomorrow
  }

  function PieceText(p: Piece, b: Bindings): string {
    match p
    case Text(x) => x
    case Hole(s) => Fill(s, b)
  }

  /** The template with every hole replaced by its binding. */
  function Render(t: seq<Piece>, b: Bindings): string {
    if t == [] then "" else Render(t[..|t| - 1], b) + PieceText(t[|t| - 1], b)
  }

  lemma RenderSnoc(t: seq<Piece>, p: Piece, b: Bindings)
    ensures Render(t + [p], b) == Render(t, b) + PieceText(p, b)
  {
    assert (t + [p])[..|t|] == t;
  }

  lemma RenderOne(p: Piece, b: Bindings)
    ensures Render([p], b) == PieceText(p, b)
  {
    assert [p][..0] == [];
  }

  lemma {:induction false} RenderAppend(t: seq<Piece>, u: seq<Piece>, b: Bindings)
    ensures Render(t + u, b) == Render(t, b) + Render(u, b)
  {
    if u != [] {
      assert (t + u)[|t + u| - 1] == u[|u| - 1];
      assert (t + u)[..|t + u| - 1] == t + u[..|u| - 1];
      RenderAppend(t, u[..|u| - 1], b);
    } else {
      assert t + u == t;
    }
  }

  /** How many holes of the given slot a template has. */
  function Holes(t: seq<Piece>, s: Slot): nat {
    if t == [] then 0 else HoleCount(t[0], s) + Holes(t[1..], s)
  }

  function HoleCount(p: Piece, s: Slot): nat {
    if p == Hole(s) then 1 else 0
  }

  lemma {:induction false} HolesAppend(t: seq<Piece>, u: seq<Piece>, s: Slot)
    ensures Holes(t + u, s) == Holes(t, s) + Holes(u, s)
  {
    if t != [] {
      assert (t + u)[0] == t[0];
      assert (t + u)[1..] == t[1..] + u;
      HolesAppend(t[1..], u, s);
    } else {
      assert t + u == u;
    }
  }


  lemma HolesSnoc(t: seq<Piece>, p: Piece, s: Slot)
    ensures Holes(t + [p], s) == Holes(t, s) + HoleCount(p, s)
  {
    HolesAppend(t, [p], s);
    HolesOne(p, s);
  }

  lemma HolesOne(p: Piece, s: Slot)
    ensures Holes([p], s) == HoleCount(p, s)
  {
    assert [p][1..] == [];
  }
  const Opening: string := "Ты умный ассистент для извлечения задач из текста.\n\nТЕКУЩАЯ ДАТА И ВРЕМЯ: "
  const IntroText1: string := "\nЗАДАЧА: Найди в тексте задачи/события и верни JSON в формате:\n{\"tasks\": [{\"title\": \"описание\", \"datetime\": \"YYYY-MM-DD HH:MM\", \"duration_minutes\": \"30\"}]}\n\n"

  /** Source lines 32-38 of extract_tasks.py. */
  const Intro: seq<Piece> :=
    [Text(Opening)]
    + [Hole(Today)]
    + [Text(" ")]
    + [Hole(ClockTime)]
    + [Text(" (")]
    + [Hole(WeekdayRu)]
    + [Text(")\n")]
    + [Text(IntroText1)]

  const RulesText0: string := "КРИТИЧЕСКИ ВАЖНО - ПРАВИЛА ОБРАБОТКИ ОТНОСИТЕЛЬНЫХ ДАТ:\n"
  const TomorrowRule: string := "1. \"завтра\" = "
  const RulesText2: string := "!)\n2. \"послезавтра\" = "
  const RulesText3: string := "\n3. \"сегодня\" = "

  /** Source lines 39-43 of extract_tasks.py. */
  const Rules: seq<Piece> :=
    [Text(RulesText0)]
    + [Text(TomorrowRule)]
    + [Hole(Tomorrow)]
    + [Text(" (НЕ ")]
    + [Hole(Today)]
    + [Text(RulesText2)]
    + [Hole(DayAfterTomorrow)]
    + [Text(RulesText3)]
    + [Hole(Today)]
    + [Text("\n\n")]

  const AlgorithmText0: string := "АЛГОРИТМ ОБРАБОТКИ:\nШаг 1: Найди в тексте упоминания времени/даты\nШаг 2: Если есть \"завтра\" - используй дату "
  const AlgorithmText1: string := "\nШаг 3: Если есть \"послезавтра\" - используй дату "
  const AlgorithmText2: string := "\nШаг 4: Если есть \"сегодня\" - используй дату "
  const AlgorithmText3: string := "\nШаг 5: Преобразуй время в 24-часовой формат\n\n"

  /** Source lines 44-50 of extract_tasks.py. */
  const Algorithm: seq<Piece> :=
    [Text(AlgorithmText0)]
    + [Hole(Tomorrow)]
    + [Text(AlgorithmText1)]
    + [Hole(DayAfterTomorrow)]
    + [Text(AlgorithmText2)]
    + [Hole(Today)]
    + [Text(AlgorithmText3)]

  const TimeExamplesText0: string := "ПРИМЕРЫ ВРЕМЕНИ:\n- \"в девять\" = 09:00\n- \"в 9 утра\" = 09:00  \n- \"в 2 дня\" = 14:00\n- \"в 5 вечера\" = 17:00\n- \"утром\" = 09:00\n- \"днем\" = 12:00\n- \"вечером\" = 18:00\n\n"

  /** Source lines 51-59 of extract_tasks.py. */
  const TimeExamples: seq<Piece> :=
    [Text(TimeExamplesText0)]

  const TestExamplesText0: string := "ТЕСТОВЫЕ ПРИМЕРЫ:\nТекст: \"завтра в девять мне нужно быть на участке\"\nРезультат: {\"tasks\": [{\"title\": \"быть на участке\", "
  const DatetimeKey: string := "\"datetime\": \""
  const AtNine: string := " 09:00\""
  const TestExamplesText3: string := ", \"duration_minutes\": \"30\"}]}\n\nТекст: \"сегодня в 15:00 встреча\"\nРезультат: {\"tasks\": [{\"title\": \"встреча\", "
  const TestExamplesText5: string := " 15:00\", \"duration_minutes\": \"60\"}]}\n\n"

  /** Source lines 60-66 of extract_tasks.py. */
  const TestExamples: seq<Piece> :=
    [Text(TestExamplesText0)]
    + [Text(DatetimeKey)]
    + [Hole(Tomorrow)]
    + [Text(AtNine)]
    + [Text(TestExamplesText3)]
    + [Text(DatetimeKey)]
    + [Hole(Today)]
    + [Text(TestExamplesText5)]

  const ImportantText0: string := "ВАЖНО: \n- Всегда используй формат YYYY-MM-DD HH:MM\n- Если дата не указана - НЕ добавляй задачу\n- Если задач нет - верни "
  const EmptyAnswer: string := "{\"tasks\": []}"
  const ImportantText2: string := "\n- НЕ добавляй лишних пояснений, только JSON\n\n"

  /** Source lines 67-72 of extract_tasks.py. */
  const Important: seq<Piece> :=
    [Text(ImportantText0)]
    + [Text(EmptyAnswer)]
    + [Text(ImportantText2)]

  const ChecklistText0: string := "ПЕРЕД ОТВЕТОМ ПОДУМАЙ:\n1. Есть ли в тексте слово \"завтра\"? Если да, дата = "
  const ChecklistText1: string := "\n2. Есть ли в тексте слово \"сегодня\"? Если да, дата = "
  const ChecklistText2: string := "\n3. Есть ли в тексте слово \"послезавтра\"? Если да, дата = "
  const ChecklistText3: string := "\n4. Какое время указано? Преобразуй в 24-часовой формат.\n\n"

  /** Source lines 73-78 of extract_tasks.py. */
  const Checklist: seq<Piece> :=
    [Text(ChecklistText0)]
    + [Hole(Tomorrow)]
    + [Text(ChecklistText1)]
    + [Hole(Today)]
    + [Text(ChecklistText2)]
    + [Hole(DayAfterTomorrow)]
    + [Text(ChecklistText3)]

  const ReminderOpening: string := "НАПОМИНАНИЕ: \"завтра\" = "
  const HandOver: string := "!\n\nОбработай следующий текст:"

  /** Source lines 79-81 of extract_tasks.py. */
  const Reminder: seq<Piece> :=
    [Text(ReminderOpening)]
    + [Hole(Tomorrow)]
    + [Text(", НЕ ")]
    + [Hole(Today)]
    + [Text(HandOver)]

  /** Block Intro with its holes filled. */
  lemma RenderIntro(b: Bindings)
    ensures Render(Intro, b) ==
      Opening
      + b.today
      + " "
      + b.clockTime
      + " ("
      + b.weekdayRu
      + ")\n"
      + IntroText1
  {
    var ps := [Text(Opening)];
    RenderOne(Text(Opening), b);
    RenderSnoc(ps, Hole(Today), b);
    ps := ps + [Hole(Today)];
    RenderSnoc(ps, Text(" "), b);
    ps := ps + [Text(" ")];
    RenderSnoc(ps, Hole(ClockTime), b);
    ps := ps + [Hole(ClockTime)];
    RenderSnoc(ps, Text(" ("), b);
    ps := ps + [Text(" (")];
    RenderSnoc(ps, Hole(WeekdayRu), b);
    ps := ps + [Hole(WeekdayRu)];
    RenderSnoc(ps, Text(")\n"), b);
    ps := ps + [Text(")\n")];
    RenderSnoc(ps, Text(IntroText1), b);
    ps := ps + [Text(IntroText1)];
  }

  /** How many holes of each slot block Intro has. */
  lemma HolesIntro(s: Slot)
    ensures Holes(Intro, s) ==
      match s
      case Today => 1
      case ClockTime => 1
      case WeekdayRu => 1
      case Tomorrow => 0
      case DayAfterTomorrow => 0
  {
    var ps := [Text(Opening)];
    HolesOne(Text(Opening), s);
    HolesSnoc(ps, Hole(Today), s);
    ps := ps + [Hole(Today)];
    HolesSnoc(ps, Text(" "), s);
    ps := ps + [Text(" ")];
    HolesSnoc(ps, Hole(ClockTime), s);
    ps := ps + [Hole(ClockTime)];
    HolesSnoc(ps, Text(" ("), s);
    ps := ps + [Text(" (")];
    HolesSnoc(ps, Hole(WeekdayRu), s);
    ps := ps + [Hole(WeekdayRu)];
    HolesSnoc(ps, Text(")\n"), s);
    ps := ps + [Text(")\n")];
    HolesSnoc(ps, Text(IntroText1), s);
    ps := ps + [Text(IntroText1)];
  }

  /** Block Rules with its holes filled. */
  lemma RenderRules(b: Bindings)
    ensures Render(Rules, b) ==
      RulesText0
      + TomorrowRule
      + b.tomorrow
      + " (НЕ "
      + b.today
      + RulesText2
      + b.dayAfterTomorrow
      + RulesText3
      + b.today
      + "\n\n"
  {
    var ps := [Text(RulesText0)];
    RenderOne(Text(RulesText0), b);
    RenderSnoc(ps, Text(TomorrowRule), b);
    ps := ps + [Text(TomorrowRule)];
    RenderSnoc(ps, Hole(Tomorrow), b);
    ps := ps + [Hole(Tomorrow)];
    RenderSnoc(ps, Text(" (НЕ "), b);
    ps := ps + [Text(" (НЕ ")];
    RenderSnoc(ps, Hole(Today), b);
    ps := ps + [Hole(Today)];
    RenderSnoc(ps, Text(RulesText2), b);
    ps := ps + [Text(RulesText2)];
    RenderSnoc(ps, Hole(DayAfterTomorrow), b);
    ps := ps + [Hole(DayAfterTomorrow)];
    RenderSnoc(ps, Text(RulesText3), b);
    ps := ps + [Text(RulesText3)];
    RenderSnoc(ps, Hole(Today), b);
    ps := ps + [Hole(Today)];
    RenderSnoc(ps, Text("\n\n"), b);
    ps := ps + [Text("\n\n")];
  }

  /** How many holes of each slot block Rules has. */
  lemma HolesRules(s: Slot)
    ensures Holes(Rules, s) ==
      match s
      case Today => 2
      case ClockTime => 0
      case WeekdayRu => 0
      case Tomorrow => 1
      case DayAfterTomorrow => 1
  {
    var ps := [Text(RulesText0)];
    HolesOne(Text(RulesText0), s);
    HolesSnoc(ps, Text(TomorrowRule), s);
    ps := ps + [Text(TomorrowRule)];
    HolesSnoc(ps, Hole(Tomorrow), s);
    ps := ps + [Hole(Tomorrow)];
    HolesSnoc(ps, Text(" (НЕ "), s);
    ps := ps + [Text(" (НЕ ")];
    HolesSnoc(ps, Hole(Today), s);
    ps := ps + [Hole(Today)];
    HolesSnoc(ps, Text(RulesText2), s);
    ps := ps + [Text(RulesText2)];
    HolesSnoc(ps, Hole(DayAfterTomorrow), s);
    ps := ps + [Hole(DayAfterTomorrow)];
    HolesSnoc(ps, Text(RulesText3), s);
    ps := ps + [Text(RulesText3)];
    HolesSnoc(ps, Hole(Today), s);
    ps := ps + [Hole(Today)];
    HolesSnoc(ps, Text("\n\n"), s);
    ps := ps + [Text("\n\n")];
  }

  /** Block Algorithm with its holes filled. */
  lemma RenderAlgorithm(b: Bindings)
    ensures Render(Algorithm, b) ==
      AlgorithmText0
      + b.tomorrow
      + AlgorithmText1
      + b.dayAfterTomorrow
      + AlgorithmText2
      + b.today
      + AlgorithmText3
  {
    var ps := [Text(AlgorithmText0)];
    RenderOne(Text(AlgorithmText0), b);
    RenderSnoc(ps, Hole(Tomorrow), b);
    ps := ps + [Hole(Tomorrow)];
    RenderSnoc(ps, Text(AlgorithmText1), b);
    ps := ps + [Text(AlgorithmText1)];
    RenderSnoc(ps, Hole(DayAfterTomorrow), b);
    ps := ps + [Hole(DayAfterTomorrow)];
    RenderSnoc(ps, Text(AlgorithmText2), b);
    ps := ps + [Text(AlgorithmText2)];
    RenderSnoc(ps, Hole(Today), b);
    ps := ps + [Hole(Today)];
    RenderSnoc(ps, Text(AlgorithmText3), b);
    ps := ps + [Text(AlgorithmText3)];
  }

  /** How many holes of each slot block Algorithm has. */
  lemma HolesAlgorithm(s: Slot)
    ensures Holes(Algorithm, s) ==
      match s
      case Today => 1
      case ClockTime => 0
      case WeekdayRu => 0
      case Tomorrow => 1
      case DayAfterTomorrow => 1
  {
    var ps := [Text(AlgorithmText0)];
    HolesOne(Text(AlgorithmText0), s);
    HolesSnoc(ps, Hole(Tomorrow), s);
    ps := ps + [Hole(Tomorrow)];
    HolesSnoc(ps, Text(AlgorithmText1), s);
    ps := ps + [Text(AlgorithmText1)];
    HolesSnoc(ps, Hole(DayAfterTomorrow), s);
    ps := ps + [Hole(DayAfterTomorrow)];
    HolesSnoc(ps, Text(AlgorithmText2), s);
    ps := ps + [Text(AlgorithmText2)];
    HolesSnoc(ps, Hole(Today), s);
    ps := ps + [Hole(Today)];
    HolesSnoc(ps, Text(AlgorithmText3), s);
    ps := ps + [Text(AlgorithmText3)];
  }

  /** Block TimeExamples with its holes filled. */
  lemma RenderTimeExamples(b: Bindings)
    ensures Render(TimeExamples, b) ==
      TimeExamplesText0
  {
    var ps := [Text(TimeExamplesText0)];
    RenderOne(Text(TimeExamplesText0), b);
  }

  /** How many holes of each slot block TimeExamples has. */
  lemma HolesTimeExamples(s: Slot)
    ensures Holes(TimeExamples, s) ==
      match s
      case Today => 0
      case ClockTime => 0
      case WeekdayRu => 0
      case Tomorrow => 0
      case DayAfterTomorrow => 0
  {
    var ps := [Text(TimeExamplesText0)];
    HolesOne(Text(TimeExamplesText0), s);
  }

  /** Block TestExamples with its holes filled. */
  lemma RenderTestExamples(b: Bindings)
    ensures Render(TestExamples, b) ==
      TestExamplesText0
      + DatetimeKey
      + b.tomorrow
      + AtNine
      + TestExamplesText3
      + DatetimeKey
      + b.today
      + TestExamplesText5
  {
    var ps := [Text(TestExamplesText0)];
    RenderOne(Text(TestExamplesText0), b);
    RenderSnoc(ps, Text(DatetimeKey), b);
    ps := ps + [Text(DatetimeKey)];
    RenderSnoc(ps, Hole(Tomorrow), b);
    ps := ps + [Hole(Tomorrow)];
    RenderSnoc(ps, Text(AtNine), b);
    ps := ps + [Text(AtNine)];
    RenderSnoc(ps, Text(TestExamplesText3), b);
    ps := ps + [Text(TestExamplesText3)];
    RenderSnoc(ps, Text(DatetimeKey), b);
    ps := ps + [Text(DatetimeKey)];
    RenderSnoc(ps, Hole(Today), b);
    ps := ps + [Hole(Today)];
    RenderSnoc(ps, Text(TestExamplesText5), b);
    ps := ps + [Text(TestExamplesText5)];
  }

  /** How many holes of each slot block TestExamples has. */
  lemma HolesTestExamples(s: Slot)
    ensures Holes(TestExamples, s) ==
      match s
      case Today => 1
      case ClockTime => 0
      case WeekdayRu => 0
      case Tomorrow => 1
      case DayAfterTomorrow => 0
  {
    var ps := [Text(TestExamplesText0)];
    HolesOne(Text(TestExamplesText0), s);
    HolesSnoc(ps, Text(DatetimeKey), s);
    ps := ps + [Text(DatetimeKey)];
    HolesSnoc(ps, Hole(Tomorrow), s);
    ps := ps + [Hole(Tomorrow)];
    HolesSnoc(ps, Text(AtNine), s);
    ps := ps + [Text(AtNine)];
    HolesSnoc(ps, Text(TestExamplesText3), s);
    ps := ps + [Text(TestExamplesText3)];
    HolesSnoc(ps, Text(DatetimeKey), s);
    ps := ps + [Text(DatetimeKey)];
    HolesSnoc(ps, Hole(Today), s);
    ps := ps + [Hole(Today)];
    HolesSnoc(ps, Text(TestExamplesText5), s);
    ps := ps + [Text(TestExamplesText5)];
  }

  /** Block Important with its holes filled. */
  lemma RenderImportant(b: Bindings)
    ensures Render(Important, b) ==
      ImportantText0
      + EmptyAnswer
      + ImportantText2
  {
    var ps := [Text(ImportantText0)];
    RenderOne(Text(ImportantText0), b);
    RenderSnoc(ps, Text(EmptyAnswer), b);
    ps := ps + [Text(EmptyAnswer)];
    RenderSnoc(ps, Text(ImportantText2), b);
    ps := ps + [Text(ImportantText2)];
  }

  /** How many holes of each slot block Important has. */
  lemma HolesImportant(s: Slot)
    ensures Holes(Important, s) ==
      match s
      case Today => 0
      case ClockTime => 0
      case WeekdayRu => 0
      case Tomorrow => 0
      case DayAfterTomorrow => 0
  {
    var ps := [Text(ImportantText0)];
    HolesOne(Text(ImportantText0), s);
    HolesSnoc(ps, Text(EmptyAnswer), s);
    ps := ps + [Text(EmptyAnswer)];
    HolesSnoc(ps, Text(ImportantText2), s);
    ps := ps + [Text(ImportantText2)];
  }

  /** Block Checklist with its holes filled. */
  lemma RenderChecklist(b: Bindings)
    ensures Render(Checklist, b) ==
      ChecklistText0
      + b.tomorrow
      + ChecklistText1
      + b.today
      + ChecklistText2
      + b.dayAfterTomorrow
      + ChecklistText3
  {
    var ps := [Text(ChecklistText0)];
    RenderOne(Text(ChecklistText0), b);
    RenderSnoc(ps, Hole(Tomorrow), b);
    ps := ps + [Hole(Tomorrow)];
    RenderSnoc(ps, Text(ChecklistText1), b);
    ps := ps + [Text(ChecklistText1)];
    RenderSnoc(ps, Hole(Today), b);
    ps := ps + [Hole(Today)];
    RenderSnoc(ps, Text(ChecklistText2), b);
    ps := ps + [Text(ChecklistText2)];
    RenderSnoc(ps, Hole(DayAfterTomorrow), b);
    ps := ps + [Hole(DayAfterTomorrow)];
    RenderSnoc(ps, Text(ChecklistText3), b);
    ps := ps + [Text(ChecklistText3)];
  }

  /** How many holes of each slot block Checklist has. */
  lemma HolesChecklist(s: Slot)
    ensures Holes(Checklist, s) ==
      match s
      case Today => 1
      case ClockTime => 0
      case WeekdayRu => 0
      case Tomorrow => 1
      case DayAfterTomorrow => 1
  {
    var ps := [Text(ChecklistText0)];
    HolesOne(Text(ChecklistText0), s);
    HolesSnoc(ps, Hole(Tomorrow), s);
    ps := ps + [Hole(Tomorrow)];
    HolesSnoc(ps, Text(ChecklistText1), s);
    ps := ps + [Text(ChecklistText1)];
    HolesSnoc(ps, Hole(Today), s);
    ps := ps + [Hole(Today)];
    HolesSnoc(ps, Text(ChecklistText2), s);
    ps := ps + [Text(ChecklistText2)];
    HolesSnoc(ps, Hole(DayAfterTomorrow), s);
    ps := ps + [Hole(DayAfterTomorrow)];
    HolesSnoc(ps, Text(ChecklistText3), s);
    ps := ps + [Text(ChecklistText3)];
  }

  /** Block Reminder with its holes filled. */
  lemma RenderReminder(b: Bindings)
    ensures Render(Reminder, b) ==
      ReminderOpening
      + b.tomorrow
      + ", НЕ "
      + b.today
      + HandOver
  {
    var ps := [Text(ReminderOpening)];
    RenderOne(Text(ReminderOpening), b);
    RenderSnoc(ps, Hole(Tomorrow), b);
    ps := ps + [Hole(Tomorrow)];
    RenderSnoc(ps, Text(", НЕ "), b);
    ps := ps + [Text(", НЕ ")];
    RenderSnoc(ps, Hole(Today), b);
    ps := ps + [Hole(Today)];
    RenderSnoc(ps, Text(HandOver), b);
    ps := ps + [Text(HandOver)];
  }

  /** How many holes of each slot block Reminder has. */
  lemma HolesReminder(s: Slot)
    ensures Holes(Reminder, s) ==
      match s
      case Today => 1
      case ClockTime => 0
      case WeekdayRu => 0
      case Tomorrow => 1
      case DayAfterTomorrow => 0
  {
    var ps := [Text(ReminderOpening)];
    HolesOne(Text(ReminderOpening), s);
    HolesSnoc(ps, Hole(Tomorrow), s);
    ps := ps + [Hole(Tomorrow)];
    HolesSnoc(ps, Text(", НЕ "), s);
    ps := ps + [Text(", НЕ ")];
    HolesSnoc(ps, Hole(Today), s);
    ps := ps + [Hole(Today)];
    HolesSnoc(ps, Text(HandOver), s);
    ps := ps + [Text(HandOver)];
  }

  const Template: seq<Piece> :=
    Intro + Rules + Algorithm + TimeExamples + TestExamples + Important + Checklist + Reminder

  /**
   * The instants the builder handles: a valid date-time whose year Python
   * writes with four digits and whose day-after-tomorrow Python can still
   * represent (adding two days past 9999-12-31 raises OverflowError).
   */
  predicate PromptDefined(i: Instant) {
    ValidInstant(i) && FourDigitYear(i.date) && Ordinal(i.date) + 2 <= MaxOrdinal
  }

  /**
   * For a reference instant with a four-digit year, the builder is defined
   * exactly when the day after tomorrow still falls in year 9999 or earlier.
   */
  lemma PromptDefinedIffInRange(i: Instant)
    requires ValidInstant(i) && FourDigitYear(i.date)
    ensures PromptDefined(i) <==> AddDays(i.date, 2).year <= 9999
  {
    RepresentableUpToYear9999(AddDays(i.date, 2));
  }

  function PromptBindings(i: Instant): Bindings
    requires PromptDefined(i)
  {
    var tomorrow := AddDaysToInstant(i, 1);
    var dayAfter := AddDaysToInstant(i, 2);
    YearStaysFourDigit(i.date, tomorrow.date);
    YearStaysFourDigit(i.date, dayAfter.date);
    Bindings(
      FormatDate(i.date),
      FormatTime(i.hour, i.minute),
      TranslateWeekday(WeekdayName(i.date)),
      FormatDate(tomorrow.date),
      FormatDate(dayAfter.date))
  }

  /** `extract_tasks_prompt()` at the reference instant i. */
  function Prompt(i: Instant): string
    requires PromptDefined(i)
  {
    Render(Template, PromptBindings(i))
  }

  /**
   * "today" reads back as the reference date, "tomorrow" as its calendar
   * successor and "day after tomorrow" as the successor of that; the clock
   * reads back as the reference hour and minute, whatever dates are resolved.
   */
  lemma ResolvedDates(i: Instant)
    requires PromptDefined(i)
    ensures ParseDate(PromptBindings(i).today) == Some(i.date)
    ensures ParseDate(PromptBindings(i).tomorrow) == Some(Successor(i.date))
    ensures ParseDate(PromptBindings(i).dayAfterTomorrow) == Some(Successor(Successor(i.date)))
    ensures ParseTime(PromptBindings(i).clockTime) == Some((i.hour, i.minute))
    ensures PromptBindings(i).weekdayRu == TranslateWeekday(WeekdayName(i.date))
  {
    var d := i.date;
    assert AddDays(d, 1) == Successor(d);
    assert AddDays(d, 2) == AddDays(Successor(d), 1) == Successor(Successor(d));
    YearStaysFourDigit(d, AddDays(d, 1));
    YearStaysFourDigit(d, AddDays(d, 2));
    ParseFormatDate(d);
    ParseFormatDate(AddDays(d, 1));
    ParseFormatDate(AddDays(d, 2));
    ParseFormatTime(i.hour, i.minute);
  }

  /** The resolved "tomorrow" is the date whose ordinal is one more than the reference date's. */
  lemma TomorrowIsNextOrdinal(i: Instant, e: Date)
    requires PromptDefined(i) && ValidDate(e) && FourDigitYear(e)
    ensures PromptBindings(i).tomorrow == FormatDate(e) <==> Ordinal(e) == Ordinal(i.date) + 1
  {
    var t := AddDays(i.date, 1);
    YearStaysFourDigit(i.date, t);
    FormatDateInjective(t, e);
    AddDaysUnique(i.date, 1, e);
  }

  /** The template's holes are those of its eight blocks. */
  lemma TemplateHoles(s: Slot)
    ensures Holes(Template, s) ==
        Holes(Intro, s) + Holes(Rules, s) + Holes(Algorithm, s) + Holes(TimeExamples, s)
        + Holes(TestExamples, s) + Holes(Important, s) + Holes(Checklist, s) + Holes(Reminder, s)
  {
    HolesAppend(Intro, Rules, s);
    HolesAppend(Intro + Rules, Algorithm, s);
    HolesAppend(Intro + Rules + Algorithm, TimeExamples, s);
    HolesAppend(Intro + Rules + Algorithm + TimeExamples, TestExamples, s);
    HolesAppend(Intro + Rules + Algorithm + TimeExamples + TestExamples, Important, s);
    HolesAppend(Intro + Rules + Algorithm + TimeExamples + TestExamples + Important, Checklist, s);
    HolesAppend(Intro + Rules + Algorithm + TimeExamples + TestExamples + Important + Checklist, Reminder, s);
  }

  /** Tomorrow fills five holes, the day after three, today seven, the clock and weekday one each. */
  lemma TemplateHoleCounts()
    ensures Holes(Template, Tomorrow) == 5
    ensures Holes(Template, DayAfterTomorrow) == 3
    ensures Holes(Template, Today) == 7
    ensures Holes(Template, ClockTime) == 1
    ensures Holes(Template, WeekdayRu) == 1
  {
    forall s: Slot
      ensures Holes(Template, s) ==
        match s
        case Tomorrow => 5
        case DayAfterTomorrow => 3
        case Today => 7
        case ClockTime => 1
        case WeekdayRu => 1
    {
      TemplateHoles(s);
      HolesIntro(s);
      HolesRules(s);
      HolesAlgorithm(s);
      HolesTimeExamples(s);
      HolesTestExamples(s);
      HolesImportant(s);
      HolesChecklist(s);
      HolesReminder(s);
    }
  }

  /** The prompt is its eight blocks rendered one after another. */
  lemma PromptBlocks(i: Instant)
    requires PromptDefined(i)
    ensures var b := PromptBindings(i);
      Prompt(i) ==
        Render(Intro, b) + Render(Rules, b) + Render(Algorithm, b) + Render(TimeExamples, b)
        + Render(TestExamples, b) + Render(Important, b) + Render(Checklist, b) + Render(Reminder, b)
  {
    var b := PromptBindings(i);
    RenderAppend(Intro, Rules, b);
    RenderAppend(Intro + Rules, Algorithm, b);
    RenderAppend(Intro + Rules + Algorithm, TimeExamples, b);
    RenderAppend(Intro + Rules + Algorithm + TimeExamples, TestExamples, b);
    RenderAppend(Intro + Rules + Algorithm + TimeExamples + TestExamples, Important, b);
    RenderAppend(Intro + Rules + Algorithm + TimeExamples + TestExamples + Important, Checklist, b);
    RenderAppend(Intro + Rules + Algorithm + TimeExamples + TestExamples + Important + Checklist, Reminder, b);
  }

  /** The header line after the opening sentence carries today, the clock and the Russian weekday. */
  lemma PromptHeader(i: Instant)
    requires PromptDefined(i)
    ensures var b := PromptBindings(i);
      Opening + b.today + " " + b.clockTime + " (" + b.weekdayRu + ")\n" <= Prompt(i)
  {
    var b := PromptBindings(i);
    PromptBlocks(i);
    RenderIntro(b);
    var header := Opening + b.today + " " + b.clockTime + " (" + b.weekdayRu + ")\n";
    PrefixOfConcat(header, IntroText1);
    var s := Render(Intro, b);
    PrefixExtend(header, s, Render(Rules, b));
    s := s + Render(Rules, b);
    PrefixExtend(header, s, Render(Algorithm, b));
    s := s + Render(Algorithm, b);
    PrefixExtend(header, s, Render(TimeExamples, b));
    s := s + Render(TimeExamples, b);
    PrefixExtend(header, s, Render(TestExamples, b));
    s := s + Render(TestExamples, b);
    PrefixExtend(header, s, Render(Important, b));
    s := s + Render(Important, b);
    PrefixExtend(header, s, Render(Checklist, b));
    s := s + Render(Checklist, b);
    PrefixExtend(header, s, Render(Reminder, b));
  }

  /** The rule block states tomorrow (not today), the day after tomorrow and today. */
  lemma PromptStatesRules(i: Instant)
    requires PromptDefined(i)
    ensures var b := PromptBindings(i);
      Contains(Prompt(i),
        TomorrowRule + b.tomorrow + " (НЕ " + b.today + RulesText2
        + b.dayAfterTomorrow + RulesText3 + b.today)
  {
    var b := PromptBindings(i);
    PromptBlocks(i);
    RenderRules(b);
    var s, u := RulesText0 + TomorrowRule, TomorrowRule;
    SuffixOfConcat(RulesText0, TomorrowRule);
    SuffixGrow(s, u, b.tomorrow);
    s, u := s + b.tomorrow, u + b.tomorrow;
    SuffixGrow(s, u, " (НЕ ");
    s, u := s + " (НЕ ", u + " (НЕ ";
    SuffixGrow(s, u, b.today);
    s, u := s + b.today, u + b.today;
    SuffixGrow(s, u, RulesText2);
    s, u := s + RulesText2, u + RulesText2;
    SuffixGrow(s, u, b.dayAfterTomorrow);
    s, u := s + b.dayAfterTomorrow, u + b.dayAfterTomorrow;
    SuffixGrow(s, u, RulesText3);
    s, u := s + RulesText3, u + RulesText3;
    SuffixGrow(s, u, b.today);
    s, u := s + b.today, u + b.today;
    SuffixContained(s, u);
    var rules := u;
    ContainsExtend(s, rules, "\n\n");
    ContainsWiden(Render(Rules, b), rules, Render(Intro, b), Render(Algorithm, b));
    ContainsExtend(Render(Intro, b) + Render(Rules, b) + Render(Algorithm, b), rules,
      Render(TimeExamples, b));
    ContainsExtend(Render(Intro, b) + Render(Rules, b) + Render(Algorithm, b) + Render(TimeExamples, b),
      rules, Render(TestExamples, b));
    ContainsExtend(Render(Intro, b) + Render(Rules, b) + Render(Algorithm, b) + Render(TimeExamples, b)
      + Render(TestExamples, b), rules, Render(Important, b));
    ContainsExtend(Render(Intro, b) + Render(Rules, b) + Render(Algorithm, b) + Render(TimeExamples, b)
      + Render(TestExamples, b) + Render(Important, b), rules, Render(Checklist, b));
    ContainsExtend(Render(Intro, b) + Render(Rules, b) + Render(Algorithm, b) + Render(TimeExamples, b)
      + Render(TestExamples, b) + Render(Important, b) + Render(Checklist, b), rules, Render(Reminder, b));
  }

  /** The closing reminder repeats tomorrow against today, and the prompt ends with the hand-over line. */
  lemma PromptEndsWithReminder(i: Instant)
    requires PromptDefined(i)
    ensures var b := PromptBindings(i);
      EndsWith(Prompt(i), ReminderOpening + b.tomorrow + ", НЕ " + b.today + HandOver)
  {
    var b := PromptBindings(i);
    PromptBlocks(i);
    RenderReminder(b);
    var front := Render(Intro, b) + Render(Rules, b) + Render(Algorithm, b) + Render(TimeExamples, b)
      + Render(TestExamples, b) + Render(Important, b) + Render(Checklist, b);
    SuffixOfConcat(front, Render(Reminder, b));
  }

  /**
   * The answer the prompt asks for when there are no tasks is the literal
   * `{"tasks": []}`: the f-string's doubled braces come out single.
   */
  lemma PromptNamesEmptyAnswer(i: Instant)
    requires PromptDefined(i)
    ensures EmptyAnswer == "{\"tasks\": []}"
    ensures Contains(Prompt(i), EmptyAnswer)
  {
    var b := PromptBindings(i);
    PromptBlocks(i);
    RenderImportant(b);
    ContainsMiddle(ImportantText0, EmptyAnswer, ImportantText2);
    ContainsWiden(Render(Important, b), EmptyAnswer,
      Render(Intro, b) + Render(Rules, b) + Render(Algorithm, b) + Render(TimeExamples, b)
      + Render(TestExamples, b), Render(Checklist, b));
    ContainsExtend(Render(Intro, b) + Render(Rules, b) + Render(Algorithm, b) + Render(TimeExamples, b)
      + Render(TestExamples, b) + Render(Important, b) + Render(Checklist, b), EmptyAnswer, Render(Reminder, b));
  }

  /** The first worked example dates "завтра в девять" at tomorrow, 09:00. */
  lemma PromptExampleUsesTomorrow(i: Instant)
    requires PromptDefined(i)
    ensures var b := PromptBindings(i);
      Contains(Prompt(i), DatetimeKey + b.tomorrow + AtNine)
  {
    var b := PromptBindings(i);
    PromptBlocks(i);
    RenderTestExamples(b);
    var s, u := TestExamplesText0 + DatetimeKey, DatetimeKey;
    SuffixOfConcat(TestExamplesText0, DatetimeKey);
    SuffixGrow(s, u, b.tomorrow);
    s, u := s + b.tomorrow, u + b.tomorrow;
    SuffixGrow(s, u, AtNine);
    s, u := s + AtNine, u + AtNine;
    SuffixContained(s, u);
    var example := u;
    ContainsExtend(s, example, TestExamplesText3);
    s := s + TestExamplesText3;
    ContainsExtend(s, example, DatetimeKey);
    s := s + DatetimeKey;
    ContainsExtend(s, example, b.today);
    s := s + b.today;
    ContainsExtend(s, example, TestExamplesText5);
    ContainsWiden(Render(TestExamples, b), example,
      Render(Intro, b) + Render(Rules, b) + Render(Algorithm, b) + Render(TimeExamples, b), Render(Important, b));
    ContainsExtend(Render(Intro, b) + Render(Rules, b) + Render(Algorithm, b) + Render(TimeExamples, b)
      + Render(TestExamples, b) + Render(Important, b), example, Render(Checklist, b));
    ContainsExtend(Render(Intro, b) + Render(Rules, b) + Render(Algorithm, b) + Render(TimeExamples, b)
      + Render(TestExamples, b) + Render(Important, b) + Render(Checklist, b), example, Render(Reminder, b));
  }

  /** The calendar facts of the worked scenario's reference date, 2024-07-20. */
  lemma SaturdayDates()
    ensures Weekday(Date(2024, 7, 20)) == 5
    ensures AddDays(Date(2024, 7, 20), 1) == Date(2024, 7, 21)
    ensures AddDays(Date(2024, 7, 20), 2) == Date(2024, 7, 22)
  {
    var d := Date(2024, 7, 20);
    assert DaysBeforeYear(2024) == 738885;
    assert Ordinal(d) == 739087;
    assert AddDays(d, 1) == Date(2024, 7, 21);
    assert AddDays(d, 2) == AddDays(Date(2024, 7, 21), 1);
  }

  lemma SaturdayYearDigits()
    ensures Digits(2024, 4) == "2024"
  {
    assert Digits(2, 1) == Digits(0, 0) + [DigitChar(2)];
    assert Digits(20, 2) == Digits(2, 1) + [DigitChar(0)];
    assert Digits(202, 3) == Digits(20, 2) + [DigitChar(2)];
    assert Digits(2024, 4) == Digits(202, 3) + [DigitChar(4)];
  }

  lemma SaturdayDayDigits()
    ensures Digits(20, 2) == "20" && Digits(21, 2) == "21" && Digits(22, 2) == "22"
  {
    assert Digits(2, 1) == Digits(0, 0) + [DigitChar(2)];
    assert Digits(20, 2) == Digits(2, 1) + [DigitChar(0)];
    assert Digits(21, 2) == Digits(2, 1) + [DigitChar(1)];
    assert Digits(22, 2) == Digits(2, 1) + [DigitChar(2)];
  }

  lemma SaturdayFieldDigits()
    ensures Digits(7, 2) == "07" && Digits(12, 2) == "12" && Digits(0, 2) == "00"
  {
    assert Digits(0, 1) == Digits(0, 0) + [DigitChar(0)];
    assert Digits(1, 1) == Digits(0, 0) + [DigitChar(1)];
    assert Digits(7, 2) == Digits(0, 1) + [DigitChar(7)];
    assert Digits(12, 2) == Digits(1, 1) + [DigitChar(2)];
    assert Digits(0, 2) == Digits(0, 1) + [DigitChar(0)];
  }

  /** The renderings of the worked scenario's dates and clock time. */
  lemma SaturdayRenderings()
    ensures FormatDate(Date(2024, 7, 20)) == "2024-07-20"
    ensures FormatDate(Date(2024, 7, 21)) == "2024-07-21"
    ensures FormatDate(Date(2024, 7, 22)) == "2024-07-22"
    ensures FormatTime(12, 0) == "12:00"
  {
    SaturdayYearDigits();
    SaturdayDayDigits();
    SaturdayFieldDigits();
  }

  /** The worked scenario: Saturday 2024-07-20 at 12:00. */
  lemma SaturdayScenario()
    ensures PromptDefined(Instant(Date(2024, 7, 20), 12, 0))
    ensures var b := PromptBindings(Instant(Date(2024, 7, 20), 12, 0));
      b.today == "2024-07-20" && b.tomorrow == "2024-07-21" && b.dayAfterTomorrow == "2024-07-22"
      && b.clockTime == "12:00" && b.weekdayRu == "суббота"
  {
    var i := Instant(Date(2024, 7, 20), 12, 0);
    SaturdayDates();
    SaturdayRenderings();
    assert AddDaysToInstant(i, 1).date == Date(2024, 7, 21);
    assert AddDaysToInstant(i, 2).date == Date(2024, 7, 22);
    assert WeekdayName(i.date) == "Saturday";
  }
}
