/** The monthly overview page (monthly-overview.js): which stored tasks, habit completions
    and log entries become calendar events under three display filters, and which of them
    belong to one day, in the day preview and in the day cell's indicators. The stored
    lists are plain records read from storage; instants are milliseconds and a `YYYY-MM-DD`
    date is the UTC day number (see module Common). The calendar widget is the list of
    events it holds. */
module MonthlyOverview {
  import opened Common

  /** Stored records as this page reads them. A task's due date and a log entry's date are
      instants; a habit's completion history holds days and may be missing. */
  datatype TaskRecord = TaskRecord(id: int, content: string, completed: bool, dueDate: int)
  datatype HabitRecord = HabitRecord(id: int, name: string, completionHistory: Option<seq<int>>)
  datatype LogRecord = LogRecord(id: int, content: string, entryType: string, date: int)

  /** `displayFilters` (monthly-overview.js:15-19). */
  datatype Filters = Filters(tasks: bool, habits: bool, events: bool)
  datatype FilterType = TasksFilter | HabitsFilter | EventsFilter
  const AllShown := Filters(true, true, true)

  /** `habit.completionHistory && habit.completionHistory.includes(day)`. */
  predicate Tracked(h: HabitRecord, day: int) {
    h.completionHistory.Some? && day in h.completionHistory.value
  }

  // ---------------------------------------------------------------------------
  // Calendar events (monthly-overview.js:150-214)

  datatype EventId = TaskEventId(taskId: int) | HabitEventId(habitId: int, day: int) | LogEventId(entryId: int)
  datatype EventKind = TaskKind(completed: bool) | HabitKind | LogEventKind
  datatype CalendarEvent = CalendarEvent(id: EventId, title: string, start: int, color: string, kind: EventKind)

  const CompletedTaskColor := "#27AE60"
  const OpenTaskColor := "#3498DB"
  const HabitColor := "#E74C3C"
  const LogEventColor := "#9B59B6"

  /** A task's all-day event on its due date, green when completed and blue otherwise. */
  function TaskEvent(t: TaskRecord): CalendarEvent {
    CalendarEvent(TaskEventId(t.id), t.content, t.dueDate,
                  if t.completed then CompletedTaskColor else OpenTaskColor, TaskKind(t.completed))
  }

  /** A habit's red all-day event on a completion day (a `YYYY-MM-DD` date parses to the
      day's UTC midnight). */
  function HabitEvent(h: HabitRecord, day: int): CalendarEvent {
    CalendarEvent(HabitEventId(h.id, day), h.name, day * MsPerDay, HabitColor, HabitKind)
  }

  /** A log event's purple all-day event at its date. */
  function LogEvent(e: LogRecord): CalendarEvent {
    CalendarEvent(LogEventId(e.id), e.content, e.date, LogEventColor, LogEventKind)
  }

  /** One event per task, in order (monthly-overview.js:158-171). */
  function TaskEvents(tasks: seq<TaskRecord>): (r: seq<CalendarEvent>)
    ensures |r| == |tasks|
    ensures forall i :: 0 <= i < |tasks| ==> r[i].id == TaskEventId(tasks[i].id) && r[i].start == tasks[i].dueDate
    ensures forall i :: 0 <= i < |tasks| ==>
      r[i].kind == TaskKind(tasks[i].completed)
      && r[i].color == (if tasks[i].completed then CompletedTaskColor else OpenTaskColor)
    ensures forall e :: e in r <==> exists t :: t in tasks && e == TaskEvent(t)
  {
    if tasks == [] then [] else [TaskEvent(tasks[0])] + TaskEvents(tasks[1..])
  }

  /** The events of one habit on the listed days. */
  function DayEvents(h: HabitRecord, days: seq<int>): (r: seq<CalendarEvent>)
    ensures |r| == |days|
    ensures forall e :: e in r <==> exists d :: d in days && e == HabitEvent(h, d)
  {
    if days == [] then [] else [HabitEvent(h, days[0])] + DayEvents(h, days[1..])
  }

  /** How many events the habits give: the lengths of their histories, a missing history
      counting as none. */
  function Completions(habits: seq<HabitRecord>): nat {
    if habits == [] then 0
    else (if habits[0].completionHistory.Some? then |habits[0].completionHistory.value| else 0)
         + Completions(habits[1..])
  }

  /** One event per completion day of each habit, none for a habit whose history is missing
      or empty (monthly-overview.js:176-193). */
  function HabitEvents(habits: seq<HabitRecord>): (r: seq<CalendarEvent>)
    ensures |r| == Completions(habits)
    ensures forall h, d :: h in habits && Tracked(h, d) ==> HabitEvent(h, d) in r
    ensures forall e :: e in r ==> exists h, d :: h in habits && Tracked(h, d) && e == HabitEvent(h, d)
  {
    if habits == [] then []
    else
      var h := habits[0];
      var rest := HabitEvents(habits[1..]);
      assert forall g :: g in habits[1..] ==> g in habits;
      if h.completionHistory.Some? && |h.completionHistory.value| > 0 then
        DayEvents(h, h.completionHistory.value) + rest
      else
        rest
  }

  /** One event per log entry of type 'event', in order (monthly-overview.js:198-212). */
  function LogEvents(logEntries: seq<LogRecord>): (r: seq<CalendarEvent>)
    ensures |r| == Count(logEntries, (e: LogRecord) => e.entryType == "event")
    ensures forall e :: e in logEntries && e.entryType == "event" ==> LogEvent(e) in r
    ensures forall c :: c in r ==> exists e :: e in logEntries && e.entryType == "event" && c == LogEvent(e)
  {
    if logEntries == [] then []
    else
      var rest := LogEvents(logEntries[1..]);
      assert forall g :: g in logEntries[1..] ==> g in logEntries;
      assert Count(logEntries, (e: LogRecord) => e.entryType == "event")
          == (if logEntries[0].entryType == "event" then 1 else 0)
             + Count(logEntries[1..], (e: LogRecord) => e.entryType == "event");
      if logEntries[0].entryType == "event" then [LogEvent(logEntries[0])] + rest else rest
  }

  /** The calendar's events under the filters: the task events, then the habit events, then
      the log events, each group only while its filter is on. */
  function CalendarEvents(f: Filters, tasks: seq<TaskRecord>, habits: seq<HabitRecord>,
                          logEntries: seq<LogRecord>): (r: seq<CalendarEvent>)
    ensures forall e :: e in r && e.kind.TaskKind? ==> f.tasks && e in TaskEvents(tasks)
    ensures forall e :: e in r && e.kind.HabitKind? ==> f.habits && e in HabitEvents(habits)
    ensures forall e :: e in r && e.kind.LogEventKind? ==> f.events && e in LogEvents(logEntries)
    ensures f.tasks ==> forall e :: e in TaskEvents(tasks) ==> e in r
    ensures f.habits ==> forall e :: e in HabitEvents(habits) ==> e in r
    ensures f.events ==> forall e :: e in LogEvents(logEntries) ==> e in r
  {
    (if f.tasks then TaskEvents(tasks) else [])
    + (if f.habits then HabitEvents(habits) else [])
    + (if f.events then LogEvents(logEntries) else [])
  }

  // ---------------------------------------------------------------------------
  // One day (monthly-overview.js:247-362)

  /** The tasks due on `day`. */
  function TasksDue(day: int, tasks: seq<TaskRecord>): (r: seq<TaskRecord>)
    ensures forall t :: t in r <==> t in tasks && DayOf(t.dueDate) == day
  {
    Filter(tasks, (t: TaskRecord) => DayOf(t.dueDate) == day)
  }

  /** The habits completed on `day`. */
  function HabitsDone(day: int, habits: seq<HabitRecord>): (r: seq<HabitRecord>)
    ensures forall h :: h in r <==> h in habits && Tracked(h, day)
  {
    Filter(habits, (h: HabitRecord) => Tracked(h, day))
  }

  /** The log entries dated on `day`. */
  function EntriesOn(day: int, logEntries: seq<LogRecord>): (r: seq<LogRecord>)
    ensures forall e :: e in r <==> e in logEntries && DayOf(e.date) == day
  {
    Filter(logEntries, (e: LogRecord) => DayOf(e.date) == day)
  }

  /** The entries of one type. */
  function OfType(entries: seq<LogRecord>, entryType: string): (r: seq<LogRecord>)
    ensures forall e :: e in r <==> e in entries && e.entryType == entryType
  {
    Filter(entries, (e: LogRecord) => e.entryType == entryType)
  }

  /** The preview's sections, titled 'Tasks', 'Habits', 'Notes' and 'Events'. */
  datatype Section = TasksSection | HabitsSection | NotesSection | EventsSection

  /** The sections created for the four groups: one per non-empty group, in the order
      tasks, habits, notes, events. */
  function Sections(tasks: seq<TaskRecord>, habits: seq<HabitRecord>, notes: seq<LogRecord>,
                    events: seq<LogRecord>): (s: seq<Section>)
    ensures (TasksSection in s <==> tasks != []) && (HabitsSection in s <==> habits != [])
    ensures (NotesSection in s <==> notes != []) && (EventsSection in s <==> events != [])
    ensures s == [] <==> tasks == [] && habits == [] && notes == [] && events == []
  {
    (if |tasks| > 0 then [TasksSection] else [])
    + (if |habits| > 0 then [HabitsSection] else [])
    + (if |notes| > 0 then [NotesSection] else [])
    + (if |events| > 0 then [EventsSection] else [])
  }

  /** What the day preview shows: the tasks due that day, the habits completed that day,
      that day's notes and events, the sections created, and whether the empty-day message
      is shown. */
  datatype Preview = Preview(tasks: seq<TaskRecord>, habits: seq<HabitRecord>, notes: seq<LogRecord>,
                             events: seq<LogRecord>, sections: seq<Section>, emptyMessage: bool)

  /** `updateDayPreview` (monthly-overview.js:299-362) for the instant `date`: a section per
      non-empty group in the order tasks, habits, notes, events; log entries of type 'task'
      are in none of them; the empty-day message exactly when no section was created. */
  function DayPreview(date: int, tasks: seq<TaskRecord>, habits: seq<HabitRecord>,
                      logEntries: seq<LogRecord>): (p: Preview)
    ensures forall t :: t in p.tasks <==> t in tasks && DayOf(t.dueDate) == DayOf(date)
    ensures forall h :: h in p.habits <==> h in habits && Tracked(h, DayOf(date))
    ensures forall e :: e in p.notes <==> e in logEntries && DayOf(e.date) == DayOf(date) && e.entryType == "note"
    ensures forall e :: e in p.events <==> e in logEntries && DayOf(e.date) == DayOf(date) && e.entryType == "event"
    ensures forall e :: e in logEntries && e.entryType == "task" ==> e !in p.notes && e !in p.events
    ensures (TasksSection in p.sections <==> p.tasks != []) && (HabitsSection in p.sections <==> p.habits != [])
    ensures (NotesSection in p.sections <==> p.notes != []) && (EventsSection in p.sections <==> p.events != [])
    ensures p.emptyMessage <==> p.sections == []
    ensures p.emptyMessage <==> p.tasks == [] && p.habits == [] && p.notes == [] && p.events == []
  {
    var dateStr := DayOf(date);
    var dateTasks := TasksDue(dateStr, tasks);
    var dateHabits := HabitsDone(dateStr, habits);
    var dateEntries := EntriesOn(dateStr, logEntries);
    var notes := if |dateEntries| > 0 then OfType(dateEntries, "note") else [];
    var events := if |dateEntries| > 0 then OfType(dateEntries, "event") else [];
    var sections := Sections(dateTasks, dateHabits, notes, events);
    Preview(dateTasks, dateHabits, notes, events, sections, |sections| == 0)
  }

  /** The dots of a day cell. */
  datatype Indicators = Indicators(hasTasks: bool, hasHabits: bool, hasEvents: bool)

  /** `customizeDayCell` (monthly-overview.js:247-297) for the cell of instant `date`. */
  function DayIndicators(date: int, tasks: seq<TaskRecord>, habits: seq<HabitRecord>,
                         logEntries: seq<LogRecord>): (i: Indicators)
    ensures i.hasTasks <==> exists t :: t in tasks && DayOf(t.dueDate) == DayOf(date)
    ensures i.hasHabits <==> exists h :: h in habits && Tracked(h, DayOf(date))
    ensures i.hasEvents <==> exists e :: e in logEntries && DayOf(e.date) == DayOf(date) && e.entryType == "event"
  {
    var dateStr := DayOf(date);
    Indicators(
      FindIndex(tasks, (t: TaskRecord) => DayOf(t.dueDate) == dateStr).Some?,
      FindIndex(habits, (h: HabitRecord) => Tracked(h, dateStr)).Some?,
      FindIndex(logEntries, (e: LogRecord) => DayOf(e.date) == dateStr && e.entryType == "event").Some?)
  }

  /** A cell's dots agree with its day's preview: task, habit and event dots exactly for
      non-empty task, habit and event sections. A cell with no dots shows the empty-day
      message unless the day has notes, which have no dot. */
  lemma IndicatorsMatchPreview(date: int, tasks: seq<TaskRecord>, habits: seq<HabitRecord>, logEntries: seq<LogRecord>)
    ensures var i, p := DayIndicators(date, tasks, habits, logEntries), DayPreview(date, tasks, habits, logEntries);
      && (i.hasTasks <==> p.tasks != [])
      && (i.hasHabits <==> p.habits != [])
      && (i.hasEvents <==> p.events != [])
      && (!i.hasTasks && !i.hasHabits && !i.hasEvents ==> (p.emptyMessage <==> p.notes == []))
  {
    var i, p := DayIndicators(date, tasks, habits, logEntries), DayPreview(date, tasks, habits, logEntries);
    if p.tasks != [] { assert p.tasks[0] in p.tasks; }
    if p.habits != [] { assert p.habits[0] in p.habits; }
    if p.events != [] { assert p.events[0] in p.events; }
  }

  // ---------------------------------------------------------------------------
  // The page

  /** The monthly overview manager (monthly-overview.js:3-421), over the stored lists. */
  class MonthlyOverviewManager {
    var displayFilters: Filters
    var calendarEvents: seq<CalendarEvent>
    const tasks: seq<TaskRecord>
    const habits: seq<HabitRecord>
    const logEntries: seq<LogRecord>

    /** Every filter starts on and the calendar holds every event (monthly-overview.js:15-23,
        118-133). */
    constructor (tasks: seq<TaskRecord>, habits: seq<HabitRecord>, logEntries: seq<LogRecord>)
      ensures this.tasks == tasks && this.habits == habits && this.logEntries == logEntries
      ensures displayFilters == AllShown
      ensures calendarEvents == CalendarEvents(AllShown, tasks, habits, logEntries)
    {
      this.tasks := tasks;
      this.habits := habits;
      this.logEntries := logEntries;
      displayFilters := AllShown;
      calendarEvents := CalendarEvents(AllShown, tasks, habits, logEntries);
    }

    /** `toggleFilter` (monthly-overview.js:109-112): flip the named flag, keep the other two,
        and rebuild the calendar's events. */
    method ToggleFilter(filterType: FilterType)
      modifies this`displayFilters, this`calendarEvents
      ensures displayFilters.tasks == (if filterType == TasksFilter then !old(displayFilters.tasks) else old(displayFilters.tasks))
      ensures displayFilters.habits == (if filterType == HabitsFilter then !old(displayFilters.habits) else old(displayFilters.habits))
      ensures displayFilters.events == (if filterType == EventsFilter then !old(displayFilters.events) else old(displayFilters.events))
      ensures calendarEvents == CalendarEvents(displayFilters, tasks, habits, logEntries)
    {
      match filterType {
        case TasksFilter => displayFilters := displayFilters.(tasks := !displayFilters.tasks);
        case HabitsFilter => displayFilters := displayFilters.(habits := !displayFilters.habits);
        case EventsFilter => displayFilters := displayFilters.(events := !displayFilters.events);
      }
      calendarEvents := CalendarEvents(displayFilters, tasks, habits, logEntries);
    }

    /** The show-all button (monthly-overview.js:83-97): every flag on, events rebuilt. */
    method ShowAll()
      modifies this`displayFilters, this`calendarEvents
      ensures displayFilters == AllShown
      ensures calendarEvents == CalendarEvents(AllShown, tasks, habits, logEntries)
    {
      displayFilters := Filters(true, true, true);
      calendarEvents := CalendarEvents(displayFilters, tasks, habits, logEntries);
    }
  }
}
