/** The dashboard page (app.js): a task list with a status filter, and a simple habit list
    whose streak counts the days a habit was checked off. `Date.now()` ids, the clock and
    the answers to `prompt` are parameters; an instant is milliseconds since the epoch and
    a day is a day number (module Common). */
module App {
  import opened Common

  // ---------------------------------------------------------------------------
  // Tasks

  /** A task (app.js:4-11). `dueDate` is `null` or an instant. */
  class Task {
    const id: int
    var content: string
    var completed: bool
    var dueDate: Option<int>

    constructor (id: int, content: string, completed: bool, dueDate: Option<int>)
      ensures this.id == id && this.content == content
      ensures this.completed == completed && this.dueDate == dueDate
    {
      this.id := id;
      this.content := content;
      this.completed := completed;
      this.dueDate := dueDate;
    }
  }

  /** A task's state at one moment, as the filter sees it. */
  datatype TaskItem = TaskItem(id: int, content: string, completed: bool, dueDate: Option<int>)

  /** The filters of the filter buttons; any other button text shows everything. */
  datatype TaskFilter = CompletedOnly | DueToday | Upcoming | ShowAll

  /** `toLowerCase` on the ASCII letters: each capital becomes its small letter, 32 code
      points further on, and every other character stays. */
  function AsciiLower(s: string): (r: string)
    ensures |r| == |s|
    ensures forall k :: 0 <= k < |s| ==> ('A' <= s[k] <= 'Z' <==> r[k] != s[k])
    ensures forall k :: 0 <= k < |s| && 'A' <= s[k] <= 'Z' ==> 'a' <= r[k] <= 'z' && r[k] as int == s[k] as int + 32
  {
    if s == [] then []
    else
      var c := s[0];
      [if 'A' <= c <= 'Z' then (c as int + 32) as char else c] + AsciiLower(s[1..])
  }

  /** The `switch (filter.toLowerCase())` of `filterTasks` (app.js:180-193). */
  function ParseFilter(text: string): TaskFilter {
    var key := AsciiLower(text);
    if key == "completed" then CompletedOnly
    else if key == "today" then DueToday
    else if key == "upcoming" then Upcoming
    else ShowAll
  }

  /** `new Date(task.dueDate)`: a missing due date is the epoch. */
  function DueInstant(t: TaskItem): int {
    if t.dueDate.Some? then t.dueDate.value else 0
  }

  /** Whether a task's card is displayed under a filter at instant `now`. */
  function Shown(f: TaskFilter, t: TaskItem, now: int): bool {
    match f
    case CompletedOnly => t.completed
    case DueToday => DayOf(DueInstant(t)) == DayOf(now)
    case Upcoming => DueInstant(t) > now
    case ShowAll => true
  }

  /** The position of the first task with the id. */
  function FirstWithId(items: seq<TaskItem>, id: int): (r: Option<nat>)
    ensures r.Some? ==> r.value < |items| && items[r.value].id == id
    ensures r.None? ==> forall j :: 0 <= j < |items| ==> items[j].id != id
  {
    FindIndex(items, (t: TaskItem) => t.id == id)
  }

  /** Each card shows or hides according to the first task carrying the card's id
      (`this.tasks.find(t => t.id === parseInt(element.dataset.id))`); there is one card
      per task, in order. */
  function Display(f: TaskFilter, items: seq<TaskItem>, now: int): (r: seq<bool>)
    ensures |r| == |items|
  {
    seq(|items|, i requires 0 <= i < |items| =>
      var k := FirstWithId(items, items[i].id);
      k.Some? && Shown(f, items[k.value], now))
  }

  predicate UniqueIds(items: seq<TaskItem>) {
    forall i, j :: 0 <= i < j < |items| ==> items[i].id != items[j].id
  }

  /** With distinct ids, the filters show exactly the completed tasks, the tasks due on
      the current calendar day, the tasks due after now, or every task. */
  lemma {:induction false} DisplayExactly(text: string, items: seq<TaskItem>, now: int)
    requires UniqueIds(items)
    ensures var d := Display(ParseFilter(text), items, now);
      && (AsciiLower(text) == "completed" ==> forall i :: 0 <= i < |items| ==> (d[i] <==> items[i].completed))
      && (AsciiLower(text) == "today" ==>
            forall i :: 0 <= i < |items| ==> (d[i] <==> DayOf(DueInstant(items[i])) == DayOf(now)))
      && (AsciiLower(text) == "upcoming" ==> forall i :: 0 <= i < |items| ==> (d[i] <==> DueInstant(items[i]) > now))
      && (AsciiLower(text) !in {"completed", "today", "upcoming"} ==> forall i :: 0 <= i < |items| ==> d[i])
  {
    var d := Display(ParseFilter(text), items, now);
    forall i | 0 <= i < |items|
      ensures d[i] == Shown(ParseFilter(text), items[i], now)
    {
      var k := FirstWithId(items, items[i].id);
      assert k == Some(i);
    }
  }

  /** The task list of the dashboard (app.js:25-217). */
  class TaskManager {
    var tasks: seq<Task>

    constructor ()
      ensures tasks == []
    {
      tasks := [];
    }

    /** The tasks' current states. */
    function Items(): (r: seq<TaskItem>)
      reads this, tasks
      ensures |r| == |tasks|
      ensures forall j :: 0 <= j < |tasks| ==>
        r[j] == TaskItem(tasks[j].id, tasks[j].content, tasks[j].completed, tasks[j].dueDate)
    {
      seq(|tasks|, j requires 0 <= j < |tasks| reads this, tasks =>
        TaskItem(tasks[j].id, tasks[j].content, tasks[j].completed, tasks[j].dueDate))
    }

    /** `this.tasks.find(t => t.id === taskId)`, as a position. */
    function Find(taskId: int): (r: Option<nat>)
      reads this
      ensures r.Some? ==> r.value < |tasks| && tasks[r.value].id == taskId
      ensures r.None? ==> forall j :: 0 <= j < |tasks| ==> tasks[j].id != taskId
    {
      FindIndex(tasks, (t: Task) => t.id == taskId)
    }

    /** `addTask` (app.js:56-65): a blank input (after trimming) adds nothing; otherwise
        one uncompleted task, due now, is appended. */
    method AddTask(input: string, id: int, now: int)
      modifies this
      ensures Trim(input) == [] ==> tasks == old(tasks)
      ensures Trim(input) != [] ==>
        && |tasks| == |old(tasks)| + 1 && tasks[..|old(tasks)|] == old(tasks)
        && var t := tasks[|tasks| - 1];
           fresh(t) && t.id == id && t.content == Trim(input) && !t.completed && t.dueDate == Some(now)
    {
      var content := Trim(input);
      if content != [] {
        var task := new Task(id, content, false, Some(now));
        tasks := tasks + [task];
      }
    }

    /** `toggleTask` (app.js:148-155): flip the first task with the id; an unknown id
        changes nothing. */
    method ToggleTask(taskId: int)
      modifies tasks
      ensures Find(taskId).Some? ==>
        var t := tasks[Find(taskId).value];
        t.completed == !old(t.completed) && t.content == old(t.content) && t.dueDate == old(t.dueDate)
      ensures forall j :: 0 <= j < |tasks| ==>
        (Find(taskId).Some? && tasks[j] == tasks[Find(taskId).value]) || unchanged(tasks[j])
    {
      var found := Find(taskId);
      if found.Some? {
        var task := tasks[found.value];
        task.completed := !task.completed;
      }
    }

    /** `deleteTask` (app.js:157-161): keep every task with another id, in order. */
    method DeleteTask(taskId: int)
      modifies this
      ensures tasks == Filter(old(tasks), (t: Task) => t.id != taskId)
      ensures forall j :: 0 <= j < |tasks| ==> tasks[j].id != taskId
    {
      tasks := Filter(tasks, (t: Task) => t.id != taskId);
    }

    /** `editTask` (app.js:163-173): a non-blank answer, trimmed, becomes the content of the
        first task with the id; otherwise nothing changes. */
    method EditTask(taskId: int, answer: Option<string>)
      modifies tasks
      ensures Find(taskId).Some? && Answered(answer) ==>
        var t := tasks[Find(taskId).value];
        t.content == Trim(answer.value) && t.completed == old(t.completed) && t.dueDate == old(t.dueDate)
      ensures forall j :: 0 <= j < |tasks| ==>
        (Find(taskId).Some? && Answered(answer) && tasks[j] == tasks[Find(taskId).value]) || unchanged(tasks[j])
    {
      var found := Find(taskId);
      if found.Some? {
        var task := tasks[found.value];
        if answer.Some? && Trim(answer.value) != [] {
          task.content := Trim(answer.value);
        }
      }
    }

    /** `filterTasks` (app.js:175-197): whether each task card is displayed. */
    method FilterTasks(filter: string, now: int) returns (display: seq<bool>)
      ensures display == Display(ParseFilter(filter), Items(), now)
    {
      var f := ParseFilter(filter);
      ghost var items := Items();
      display := [];
      var i := 0;
      while i < |tasks|
        invariant 0 <= i <= |tasks|
        invariant display == Display(f, items, now)[..i]
      {
        var found := Find(tasks[i].id);
        var shown := false;
        if found.Some? {
          var task := tasks[found.value];
          shown := Shown(f, TaskItem(task.id, task.content, task.completed, task.dueDate), now);
        }
        assert FirstWithId(items, items[i].id) == found by {
          FindIndexOfItems(tasks[i].id);
        }
        display := display + [shown];
        i := i + 1;
      }
    }

    /** Looking a task up among the objects and among their states finds the same position. */
    lemma FindIndexOfItems(taskId: int)
      ensures FirstWithId(Items(), taskId) == Find(taskId)
    {
    }
  }

  // ---------------------------------------------------------------------------
  // Habits

  /** A habit of the dashboard (app.js:14-22); `completedDates` holds the days it was
      checked off. */
  class Habit {
    const id: int
    var name: string
    const frequency: string
    var streak: int
    var completedDates: seq<int>

    /** The streak is the number of checked-off days, and no day is recorded twice. */
    predicate StreakCountsDays()
      reads this
    {
      streak == |completedDates|
      && forall i, j :: 0 <= i < j < |completedDates| ==> completedDates[i] != completedDates[j]
    }

    constructor (id: int, name: string)
      ensures this.id == id && this.name == name && frequency == "daily"
      ensures streak == 0 && completedDates == []
      ensures StreakCountsDays()
    {
      this.id := id;
      this.name := name;
      frequency := "daily";
      streak := 0;
      completedDates := [];
    }
  }

  /** The habit list of the dashboard (app.js:220-330). */
  class HabitManager {
    var habits: seq<Habit>

    constructor ()
      ensures habits == []
    {
      habits := [];
    }

    /** Every habit's streak counts its distinct checked-off days; every operation keeps
        this. */
    predicate Valid()
      reads this, habits
    {
      forall j :: 0 <= j < |habits| ==> habits[j].StreakCountsDays()
    }

    function Find(habitId: int): (r: Option<nat>)
      reads this
      ensures r.Some? ==> r.value < |habits| && habits[r.value].id == habitId
      ensures r.None? ==> forall j :: 0 <= j < |habits| ==> habits[j].id != habitId
    {
      FindIndex(habits, (h: Habit) => h.id == habitId)
    }

    /** `addHabit` (app.js:241-250): a blank input adds nothing; otherwise one new habit
        with no checked-off days and streak 0 is appended. */
    method AddHabit(input: string, id: int)
      modifies this
      ensures Trim(input) == [] ==> habits == old(habits)
      ensures Trim(input) != [] ==>
        && |habits| == |old(habits)| + 1 && habits[..|old(habits)|] == old(habits)
        && var h := habits[|habits| - 1];
           fresh(h) && h.id == id && h.name == Trim(input) && h.streak == 0 && h.completedDates == []
      ensures old(Valid()) ==> Valid()
    {
      var name := Trim(input);
      if name != [] {
        var habit := new Habit(id, name);
        habits := habits + [habit];
      }
    }

    /** `completeHabit` (app.js:287-298): check the first habit with the id off for `today`
        unless it already is, adding one to its streak; once checked off, a second call the
        same day changes nothing. */
    method CompleteHabit(habitId: int, today: int)
      modifies habits
      ensures Find(habitId).Some? ==>
        var h := habits[Find(habitId).value];
        && today in h.completedDates
        && (today in old(h.completedDates) ==> unchanged(h))
        && (today !in old(h.completedDates) ==>
              h.completedDates == old(h.completedDates) + [today] && h.streak == old(h.streak) + 1
              && h.name == old(h.name))
      ensures forall j :: 0 <= j < |habits| ==>
        (Find(habitId).Some? && habits[j] == habits[Find(habitId).value]) || unchanged(habits[j])
      ensures old(Valid()) ==> Valid()
    {
      var found := Find(habitId);
      if found.Some? {
        var habit := habits[found.value];
        if today !in habit.completedDates {
          habit.completedDates := habit.completedDates + [today];
          habit.streak := habit.streak + 1;
        }
      }
    }

    /** `deleteHabit` (app.js:300-304): keep every habit with another id, in order. */
    method DeleteHabit(habitId: int)
      modifies this
      ensures habits == Filter(old(habits), (h: Habit) => h.id != habitId)
      ensures forall j :: 0 <= j < |habits| ==> habits[j].id != habitId
      ensures old(Valid()) ==> Valid()
    {
      habits := Filter(habits, (h: Habit) => h.id != habitId);
    }

    /** `editHabit` (app.js:306-316): a non-blank answer, trimmed, becomes the name of the
        first habit with the id; otherwise nothing changes. */
    method EditHabit(habitId: int, answer: Option<string>)
      modifies habits
      ensures Find(habitId).Some? && Answered(answer) ==>
        var h := habits[Find(habitId).value];
        h.name == Trim(answer.value) && h.streak == old(h.streak) && h.completedDates == old(h.completedDates)
      ensures forall j :: 0 <= j < |habits| ==>
        (Find(habitId).Some? && Answered(answer) && habits[j] == habits[Find(habitId).value]) || unchanged(habits[j])
      ensures old(Valid()) ==> Valid()
    {
      var found := Find(habitId);
      if found.Some? {
        var habit := habits[found.value];
        if answer.Some? && Trim(answer.value) != [] {
          habit.name := Trim(answer.value);
        }
      }
    }
  }
}
