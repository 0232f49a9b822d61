/** The habit tracker page (habits.js): habit records whose completion flag, completion
    history and stored streak are updated in place by the habit manager. Days are day
    numbers (see module HabitStreak); the clock's "today" and the ISO timestamp stored as
    the last completion date are parameters. */
module Habits {
  import opened Common
  import opened HabitStreak

  /** A habit record (habits.js:3-13). */
  class Habit {
    const id: int
    var name: string
    var completed: bool
    var lastCompletedDate: Option<string>
    var streak: int
    var completionHistory: seq<Day>

    constructor (id: int, name: string)
      ensures this.id == id && this.name == name
      ensures !completed && lastCompletedDate == None
      ensures streak == 0 && completionHistory == []
    {
      this.id := id;
      this.name := name;
      completed := false;
      lastCompletedDate := None;
      streak := 0;
      completionHistory := [];
    }
  }

  /** The recount loop of the un-mark path (habits.js:145-161): from the last entry of the
      sorted history walk back while each step is exactly one day (the `dayDiff === 1` test;
      two `YYYY-MM-DD` dates parse to UTC midnights, so their difference in days is exact).
      `maxStreak` only ever takes the running count, because the loop stops at the first gap,
      so the result is the trailing run. */
  method RecountStreak(history: seq<Day>) returns (maxStreak: nat)
    requires history != []
    ensures maxStreak == TrailingRun(history)
    ensures 1 <= maxStreak <= |history|
  {
    var currentStreak := 1;
    maxStreak := 1;
    var i := |history| - 1;
    assert history[..i + 1] == history;
    while i > 0
      invariant 0 <= i < |history|
      invariant currentStreak == maxStreak == |history| - i
      invariant TrailingRun(history) == TrailingRun(history[..i + 1]) + (|history| - 1 - i)
    {
      var dayDiff := history[i] - history[i - 1];
      if dayDiff == 1 {
        assert history[..i + 1][..i] == history[..i];
        currentStreak := currentStreak + 1;
        if currentStreak > maxStreak {
          maxStreak := currentStreak;
        }
      } else {
        break;
      }
      i := i - 1;
    }
  }

  /** The habit manager of habits.js (habits.js:15-240). */
  class HabitManager {
    var habits: seq<Habit>

    constructor ()
      ensures habits == []
    {
      habits := [];
    }

    /** `this.habits.find(h => h.id === habitId)`, as a position. */
    function Find(habitId: int): (r: Option<nat>)
      reads this
      ensures r.Some? ==> r.value < |habits| && habits[r.value].id == habitId
      ensures r.None? ==> forall j :: 0 <= j < |habits| ==> habits[j].id != habitId
    {
      FindIndex(habits, (h: Habit) => h.id == habitId)
    }

    /** `updateStreak` (habits.js:100-165): a completed habit gets `today` marked, an
        uncompleted one gets it un-marked, as `Mark` and `Unmark` specify. */
    method UpdateStreak(habit: Habit, today: Day)
      modifies habit`completionHistory, habit`streak
      ensures habit.completed ==>
        (habit.completionHistory, habit.streak) == Mark(old(habit.completionHistory), old(habit.streak), today)
      ensures !habit.completed ==>
        (habit.completionHistory, habit.streak) == Unmark(old(habit.completionHistory), old(habit.streak), today)
    {
      if habit.completed {
        MarkDay(habit, today);
      } else {
        UnmarkDay(habit, today);
      }
    }

    /** The completed branch of `updateStreak` (habits.js:103-132): add `today` unless it is
        recorded, keep the history sorted, and extend the streak when the entry before
        `today` is yesterday, restarting it at 1 otherwise. */
    method MarkDay(habit: Habit, today: Day)
      modifies habit`completionHistory, habit`streak
      ensures (habit.completionHistory, habit.streak) == Mark(old(habit.completionHistory), old(habit.streak), today)
    {
      var history := habit.completionHistory;
      var oldStreak := habit.streak;
      if today !in history {
        var sorted := Sort(history + [today]);
        MarkByPrecedingEntry(history, oldStreak, today);
        var lastCompletionIndex := IndexOf(sorted, today) - 1;
        var streak := 1;
        if lastCompletionIndex >= 0 && sorted[lastCompletionIndex] == today - 1 {
          streak := oldStreak + 1;
        }
        habit.completionHistory := sorted;
        habit.streak := streak;
      }
    }

    /** The uncompleted branch of `updateStreak` (habits.js:133-163): remove `today` when it
        is recorded and recount the streak from the remaining history. */
    method UnmarkDay(habit: Habit, today: Day)
      modifies habit`completionHistory, habit`streak
      ensures (habit.completionHistory, habit.streak) == Unmark(old(habit.completionHistory), old(habit.streak), today)
    {
      var todayIndex := IndexOf(habit.completionHistory, today);
      if todayIndex != -1 {
        habit.completionHistory := RemoveAt(habit.completionHistory, todayIndex);
        if |habit.completionHistory| == 0 {
          habit.streak := 0;
        } else {
          habit.completionHistory := Sort(habit.completionHistory);
          var maxStreak := RecountStreak(habit.completionHistory);
          habit.streak := maxStreak;
        }
      }
    }

    /** `completeHabit` (habits.js:173-180): flip the named habit's completion flag, record
        the completion time `now` exactly while it is completed, and mark or un-mark
        `today`; an unknown id changes nothing. A habit whose streak was consistent with
        its history stays consistent. */
    method CompleteHabit(habitId: int, today: Day, now: string)
      modifies habits
      ensures Find(habitId).None? ==> forall h :: h in habits ==> unchanged(h)
      ensures Find(habitId).Some? ==>
        var h := habits[Find(habitId).value];
        && h.completed == !old(h.completed)
        && (h.lastCompletedDate == None <==> !h.completed)
        && (h.completed ==> h.lastCompletedDate == Some(now))
        && h.name == old(h.name)
        && (h.completed ==>
              (h.completionHistory, h.streak) == Mark(old(h.completionHistory), old(h.streak), today))
        && (!h.completed ==>
              (h.completionHistory, h.streak) == Unmark(old(h.completionHistory), old(h.streak), today))
        && (old(Consistent(h.completionHistory, h.streak, today)) ==>
              Consistent(h.completionHistory, h.streak, today))
      ensures Find(habitId).Some? ==>
        forall g :: g in habits && g != habits[Find(habitId).value] ==> unchanged(g)
    {
      var found := Find(habitId);
      if found.Some? {
        ToggleCompletion(habits[found.value], today, now);
      }
    }

    /** The body of `completeHabit` for the habit found. */
    method ToggleCompletion(habit: Habit, today: Day, now: string)
      modifies habit
      ensures habit.completed == !old(habit.completed)
      ensures habit.lastCompletedDate == if habit.completed then Some(now) else None
      ensures habit.name == old(habit.name)
      ensures habit.completed ==>
        (habit.completionHistory, habit.streak) == Mark(old(habit.completionHistory), old(habit.streak), today)
      ensures !habit.completed ==>
        (habit.completionHistory, habit.streak) == Unmark(old(habit.completionHistory), old(habit.streak), today)
      ensures old(Consistent(habit.completionHistory, habit.streak, today)) ==>
        Consistent(habit.completionHistory, habit.streak, today)
    {
      habit.completed := !habit.completed;
      habit.lastCompletedDate := if habit.completed then Some(now) else None;
      ghost var h0, s0 := habit.completionHistory, habit.streak;
      UpdateStreak(habit, today);
      if Consistent(h0, s0, today) {
        if habit.completed {
          MarkKeepsStreakConsistent(h0, s0, today);
        } else {
          UnmarkKeepsStreakConsistent(h0, s0, today);
        }
      }
    }

    /** `deleteHabit` (habits.js:204-205): keep every habit with another id, in order. */
    method DeleteHabit(habitId: int)
      modifies this
      ensures habits == Filter(old(habits), (h: Habit) => h.id != habitId)
      ensures forall j :: 0 <= j < |habits| ==> habits[j].id != habitId
    {
      habits := Filter(habits, (h: Habit) => h.id != habitId);
    }

    /** `editHabit` (habits.js:210-215): the dialog's answer, trimmed, becomes the name of
        the named habit when it is given and not blank; otherwise nothing changes. */
    method EditHabit(habitId: int, answer: Option<string>)
      modifies habits`name
      ensures Find(habitId).Some? && Answered(answer) ==>
        habits[Find(habitId).value].name == Trim(answer.value)
      ensures forall g :: g in habits && g.name != old(g.name) ==>
        Find(habitId).Some? && Answered(answer) && g == habits[Find(habitId).value]
    {
      var found := Find(habitId);
      if found.Some? {
        var habit := habits[found.value];
        if answer.Some? && Trim(answer.value) != [] {
          habit.name := Trim(answer.value);
        }
      }
    }
  }
}
