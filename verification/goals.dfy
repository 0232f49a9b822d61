/** The goals page (goals.js): goals with milestones, the progress percentage each goal
    derives from its milestones, the type filter, and the per-type progress averages.
    `Date.now()` ids, the clock and the answers to `prompt`/`confirm` are parameters. */
module Goals {
  import opened Common

  // ---------------------------------------------------------------------------
  // Rounding and averages

  /** `Math.round(a / b)` for a positive divisor: the nearest integer, halves rounded up.
      `Math.round(x)` is `floor(x + 1/2)`, and `floor((2a + b) / 2b)` is Dafny's division. */
  function Round(a: int, b: int): int
    requires b > 0
  {
    (2 * a + b) / (2 * b)
  }

  /** `Round(a, b)` is the integer nearest to a/b: it lies within half of a/b, on the
      lower side when a/b is exactly halfway. */
  lemma {:induction false} RoundIsNearest(a: int, b: int)
    requires b > 0
    ensures 2 * b * Round(a, b) - b <= 2 * a < 2 * b * Round(a, b) + b
  {
    var q, r := (2 * a + b) / (2 * b), (2 * a + b) % (2 * b);
    assert 2 * a + b == 2 * b * q + r && 0 <= r < 2 * b;
  }

  /** A positive factor keeps the sign of a product and scales it by at least itself. */
  lemma {:induction false} ScaleSign(b: int, x: int)
    requires b > 0
    ensures x > 0 ==> b * x >= b
    ensures x < 0 ==> b * x <= -b
    decreases if x < 0 then -x else x
  {
    if x > 1 {
      ScaleSign(b, x - 1);
      assert b * x == b * (x - 1) + b;
    } else if x < -1 {
      ScaleSign(b, x + 1);
      assert b * x == b * (x + 1) - b;
    }
  }

  /** ...and it is the only integer that does. */
  lemma {:induction false} RoundUnique(a: int, b: int, q: int)
    requires b > 0
    requires 2 * b * q - b <= 2 * a < 2 * b * q + b
    ensures Round(a, b) == q
  {
    RoundIsNearest(a, b);
    var r := Round(a, b);
    ScaleSign(2 * b, r - q);
    assert 2 * b * (r - q) == 2 * b * r - 2 * b * q;
  }

  /** `Math.round((done / total) * 100)`, the percentage of a goal's milestones that are
      done (goals.js:30), rounded from the exact ratio. The page rounds a double instead,
      which can land just below a half the exact ratio reaches: for 23 of 40 the double is
      57.49999999999999 and the page shows 57, where this gives 58. */
  function Percent(done: int, total: int): int
    requires total > 0
  {
    Round(100 * done, total)
  }

  /** A percentage of a part lies in 0..100. */
  lemma {:induction false} PercentBounds(done: int, total: int)
    requires 0 <= done <= total && total > 0
    ensures 0 <= Percent(done, total) <= 100
  {
    var r := Percent(done, total);
    RoundIsNearest(100 * done, total);
    ScaleSign(total, 2 * r - 201);
    ScaleSign(total, 2 * r + 1);
    assert total * (2 * r - 201) == 2 * total * r - 201 * total;
    assert total * (2 * r + 1) == 2 * total * r + total;
  }

  /** The percentage reaches 100 exactly when at least 199/200 of the milestones are done:
      all of them done always gives 100, and so do 199 out of 200. */
  lemma {:induction false} PercentFullIff(done: int, total: int)
    requires 0 <= done <= total && total > 0
    ensures Percent(done, total) == 100 <==> 200 * done >= 199 * total
    ensures done == total ==> Percent(done, total) == 100
  {
    if 200 * done >= 199 * total {
      RoundUnique(100 * done, total, 100);
    } else {
      RoundIsNearest(100 * done, total);
      var r := Percent(done, total);
      if r == 100 {
        assert false;
      }
    }
  }

  /** The mean of the values rounded as `Math.round(sum / length)`, and 0 for no values
      (the averages of goals.js:341-351). */
  function Average(s: seq<int>): (r: int)
    ensures s == [] ==> r == 0
    ensures s != [] ==> 2 * |s| * r - |s| <= 2 * Sum(s) < 2 * |s| * r + |s|
  {
    if s == [] then 0
    else
      RoundIsNearest(Sum(s), |s|);
      Round(Sum(s), |s|)
  }

  /** The average of values in lo..hi (a range around 0) is in lo..hi. */
  lemma {:induction false} AverageBounds(s: seq<int>, lo: int, hi: int)
    requires lo <= 0 <= hi
    requires forall j :: 0 <= j < |s| ==> lo <= s[j] <= hi
    ensures lo <= Average(s) <= hi
  {
    if s != [] {
      SumBounds(s, lo, hi);
      NearestWithin(|s|, Average(s), Sum(s), lo, hi);
    }
  }

  /** An integer within half of S/n, where S/n lies in lo..hi, lies in lo..hi too. */
  lemma {:induction false} NearestWithin(n: int, r: int, S: int, lo: int, hi: int)
    requires n > 0
    requires 2 * n * r - n <= 2 * S < 2 * n * r + n
    requires lo * n <= S <= hi * n
    ensures lo <= r <= hi
  {
    ScaleSign(n, 2 * r - 2 * hi - 1);
    ScaleSign(n, 2 * r - 2 * lo + 1);
    assert n * (2 * r - 2 * hi - 1) == 2 * n * r - 2 * hi * n - n;
    assert n * (2 * r - 2 * lo + 1) == 2 * n * r - 2 * lo * n + n;
  }

  /** The average of equal values is that value. */
  lemma {:induction false} AverageOfEqual(s: seq<int>, v: int)
    requires s != []
    requires forall j :: 0 <= j < |s| ==> s[j] == v
    ensures Average(s) == v
  {
    SumBounds(s, v, v);
    RoundUnique(Sum(s), |s|, v);
  }

  // ---------------------------------------------------------------------------
  // Milestones and goals

  /** A milestone object literal (goals.js:16-20). Milestones live only inside their goal's
      list, so they are values. */
  datatype Milestone = Milestone(id: int, content: string, completed: bool)

  /** The number of milestones marked done. */
  function DoneCount(milestones: seq<Milestone>): (n: nat)
    ensures n <= |milestones|
    ensures n == |milestones| <==> forall j :: 0 <= j < |milestones| ==> milestones[j].completed
  {
    Count(milestones, (m: Milestone) => m.completed)
  }

  /** The progress and completion flag that `updateProgress` (goals.js:23-32) derives from
      the milestones and the flag the goal had: without milestones the flag is kept and
      decides 0 or 100; with milestones the progress is the rounded percentage done and the
      goal is completed exactly when it reaches 100. */
  function Recomputed(milestones: seq<Milestone>, completed: bool): (r: (int, bool))
    ensures 0 <= r.0 <= 100 && (r.1 <==> r.0 == 100)
    ensures milestones == [] ==> r.1 == completed
    ensures milestones != [] ==>
      (r.1 <==> 200 * DoneCount(milestones) >= 199 * |milestones|)
    ensures milestones != [] && DoneCount(milestones) == |milestones| ==> r.1
  {
    if milestones == [] then
      (if completed then 100 else 0, completed)
    else
      var done := DoneCount(milestones);
      PercentBounds(done, |milestones|);
      PercentFullIff(done, |milestones|);
      var progress := Percent(done, |milestones|);
      (progress, progress == 100)
  }

  /** A goal (goals.js:3-33); its type is fixed when it is created. */
  class Goal {
    const id: int
    var content: string
    const goalType: string
    var completed: bool
    var progress: int
    const createdAt: int
    var deadline: Option<string>
    var milestones: seq<Milestone>

    /** Progress is a percentage and the goal is completed exactly at 100. */
    predicate ProgressConsistent()
      reads this
    {
      0 <= progress <= 100 && (completed <==> progress == 100)
    }

    constructor (id: int, content: string, goalType: string, createdAt: int, deadline: Option<string>)
      ensures this.id == id && this.content == content && this.goalType == goalType
      ensures this.createdAt == createdAt && this.deadline == deadline
      ensures !completed && progress == 0 && milestones == []
      ensures ProgressConsistent()
    {
      this.id := id;
      this.content := content;
      this.goalType := goalType;
      this.createdAt := createdAt;
      this.deadline := deadline;
      completed := false;
      progress := 0;
      milestones := [];
    }

    /** `addMilestone` (goals.js:15-21): append one uncompleted milestone. */
    method AddMilestone(milestone: string, milestoneId: int)
      modifies this`milestones
      ensures milestones == old(milestones) + [Milestone(milestoneId, milestone, false)]
    {
      milestones := milestones + [Milestone(milestoneId, milestone, false)];
    }

    /** The field updates of `editGoal` (goals.js:278-290): the new content, then, if the
        user chooses to update the deadline, `new Date(deadlineStr)` for a non-blank
        deadline answer and `null` otherwise. */
    method Edit(newContent: string, updateDeadline: bool, deadlineAnswer: Option<string>)
      modifies this`content, this`deadline
      ensures content == newContent
      ensures deadline == (if !updateDeadline then old(deadline)
                           else if Answered(deadlineAnswer) then deadlineAnswer
                           else None)
    {
      content := newContent;
      if updateDeadline {
        if deadlineAnswer.Some? && Trim(deadlineAnswer.value) != [] {
          deadline := deadlineAnswer;
        } else {
          deadline := None;
        }
      }
    }

    /** `updateProgress` (goals.js:23-32). */
    method UpdateProgress()
      modifies this`progress, this`completed
      ensures (progress, completed) == Recomputed(milestones, old(completed))
      ensures ProgressConsistent()
    {
      if |milestones| == 0 {
        progress := if completed then 100 else 0;
        return;
      }
      var completedMilestones := Count(milestones, (m: Milestone) => m.completed);
      progress := Round(100 * completedMilestones, |milestones|);
      completed := progress == 100;
    }
  }

  /** A goal's type and progress, all that the averages look at. */
  datatype GoalSummary = GoalSummary(goalType: string, progress: int)

  datatype ProgressStats = ProgressStats(shortTerm: int, longTerm: int, overall: int)

  function Progresses(gs: seq<GoalSummary>): (r: seq<int>)
    ensures |r| == |gs| && forall j :: 0 <= j < |gs| ==> r[j] == gs[j].progress
  {
    seq(|gs|, j requires 0 <= j < |gs| => gs[j].progress)
  }

  /** `updateProgressStats` (goals.js:338-351): the rounded average progress of the
      short-term goals, of the long-term goals and of all goals. */
  function StatsOf(gs: seq<GoalSummary>): ProgressStats {
    ProgressStats(
      Average(Progresses(Filter(gs, (g: GoalSummary) => g.goalType == "short-term"))),
      Average(Progresses(Filter(gs, (g: GoalSummary) => g.goalType == "long-term"))),
      Average(Progresses(gs)))
  }

  /** Each average is 0 for a group without goals and lies in 0..100 when every goal's
      progress does. */
  lemma {:induction false} StatsWithinPercent(gs: seq<GoalSummary>)
    requires forall j :: 0 <= j < |gs| ==> 0 <= gs[j].progress <= 100
    ensures var st := StatsOf(gs);
      && 0 <= st.shortTerm <= 100 && 0 <= st.longTerm <= 100 && 0 <= st.overall <= 100
      && (gs == [] ==> st.overall == 0)
      && ((forall j :: 0 <= j < |gs| ==> gs[j].goalType != "short-term") ==> st.shortTerm == 0)
      && ((forall j :: 0 <= j < |gs| ==> gs[j].goalType != "long-term") ==> st.longTerm == 0)
  {
    var short := Filter(gs, (g: GoalSummary) => g.goalType == "short-term");
    var long := Filter(gs, (g: GoalSummary) => g.goalType == "long-term");
    AverageBounds(Progresses(short), 0, 100);
    AverageBounds(Progresses(long), 0, 100);
    AverageBounds(Progresses(gs), 0, 100);
    if forall j :: 0 <= j < |gs| ==> gs[j].goalType != "short-term" {
      if short != [] {
        assert false;
      }
    }
    if forall j :: 0 <= j < |gs| ==> gs[j].goalType != "long-term" {
      if long != [] {
        assert false;
      }
    }
  }

  // ---------------------------------------------------------------------------
  // The manager

  /** The goals manager (goals.js:35-386). */
  class GoalsManager {
    var goals: seq<Goal>
    var currentFilter: string

    constructor ()
      ensures goals == [] && currentFilter == "all"
    {
      goals := [];
      currentFilter := "all";
    }

    /** Every goal's progress is a percentage matching its completion flag; every
        operation of the manager keeps this. */
    predicate Valid()
      reads this, goals
    {
      forall j :: 0 <= j < |goals| ==> goals[j].ProgressConsistent()
    }

    /** `this.goals.find(g => g.id === id)`, as a position. */
    function Find(id: int): (r: Option<nat>)
      reads this
      ensures r.Some? ==> r.value < |goals| && goals[r.value].id == id
      ensures r.None? ==> forall j :: 0 <= j < |goals| ==> goals[j].id != id
    {
      FindIndex(goals, (g: Goal) => g.id == id)
    }

    /** `setActiveFilter` (goals.js:95-96); the button highlighting is not modelled. */
    method SetActiveFilter(filter: string)
      modifies this`currentFilter
      ensures currentFilter == filter
    {
      currentFilter := filter;
    }

    /** The goals `renderGoals` shows (goals.js:141-144): all of them under 'all', otherwise
        exactly those of the selected type, in order. */
    function VisibleGoals(): (r: seq<Goal>)
      reads this
      ensures currentFilter == "all" ==> r == goals
      ensures forall j :: 0 <= j < |r| ==>
        r[j] in goals && (currentFilter == "all" || r[j].goalType == currentFilter)
      ensures forall j :: 0 <= j < |goals| && (currentFilter == "all" || goals[j].goalType == currentFilter) ==>
        goals[j] in r
    {
      var filter := currentFilter;
      if filter != "all" then Filter(goals, (g: Goal) => g.goalType == filter) else goals
    }

    /** The goals' types and progress values. */
    function Summaries(): (r: seq<GoalSummary>)
      reads this, goals
      ensures |r| == |goals|
      ensures forall j :: 0 <= j < |goals| ==> r[j] == GoalSummary(goals[j].goalType, goals[j].progress)
    {
      seq(|goals|, j requires 0 <= j < |goals| reads this, goals => GoalSummary(goals[j].goalType, goals[j].progress))
    }

    /** The three averages shown by `updateProgressStats` are percentages, and 0 for an
        empty group, whenever the manager is valid. */
    lemma StatsArePercentages()
      requires Valid()
      ensures var st := StatsOf(Summaries());
        0 <= st.shortTerm <= 100 && 0 <= st.longTerm <= 100 && 0 <= st.overall <= 100
        && (goals == [] ==> st.overall == 0)
    {
      StatsWithinPercent(Summaries());
    }

    /** `addGoal` (goals.js:115-132): a blank input (after trimming) adds nothing;
        otherwise one new, uncompleted goal without milestones or deadline is appended. */
    method AddGoal(input: string, goalType: string, id: int, now: int)
      modifies this
      ensures currentFilter == old(currentFilter)
      ensures Trim(input) == [] ==> goals == old(goals)
      ensures Trim(input) != [] ==>
        && |goals| == |old(goals)| + 1 && goals[..|old(goals)|] == old(goals)
        && var g := goals[|goals| - 1];
           && fresh(g) && g.id == id && g.content == Trim(input) && g.goalType == goalType
           && !g.completed && g.progress == 0 && g.milestones == [] && g.deadline == None
           && g.createdAt == now
      ensures old(Valid()) ==> Valid()
    {
      var content := Trim(input);
      if content != [] {
        var goal := new Goal(id, content, goalType, now, None);
        goals := goals + [goal];
      }
    }

    /** `toggleGoalComplete` (goals.js:253-262): flip the flag of the named goal and set its
        progress to 100 or 0 to match; an unknown id changes nothing. */
    method ToggleGoalComplete(id: int)
      modifies goals
      ensures Find(id).None? ==> forall g :: g in goals ==> unchanged(g)
      ensures Find(id).Some? ==>
        var g := goals[Find(id).value];
        && g.completed == !old(g.completed)
        && g.progress == (if g.completed then 100 else 0)
        && g.ProgressConsistent()
        && g.content == old(g.content) && g.milestones == old(g.milestones)
        && g.deadline == old(g.deadline)
      ensures Find(id).Some? ==> forall g :: g in goals && g != goals[Find(id).value] ==> unchanged(g)
      ensures old(Valid()) ==> Valid()
    {
      var found := Find(id);
      if found.Some? {
        var goal := goals[found.value];
        goal.completed := !goal.completed;
        goal.progress := if goal.completed then 100 else 0;
      }
    }

    /** `deleteGoal` (goals.js:264-271): once confirmed, keep every goal with another id. */
    method DeleteGoal(id: int, confirmed: bool)
      modifies this
      ensures currentFilter == old(currentFilter)
      ensures !confirmed ==> goals == old(goals)
      ensures confirmed ==> goals == Filter(old(goals), (g: Goal) => g.id != id)
      ensures confirmed ==> forall j :: 0 <= j < |goals| ==> goals[j].id != id
      ensures old(Valid()) ==> Valid()
    {
      if confirmed {
        goals := Filter(goals, (g: Goal) => g.id != id);
      }
    }

    /** `editGoal` (goals.js:273-297): a non-blank answer, trimmed, becomes the content;
        then, if the user chooses to update the deadline, a non-blank deadline answer
        becomes the deadline and anything else clears it. A missing goal or a blank answer
        changes nothing. */
    method EditGoal(id: int, answer: Option<string>, updateDeadline: bool, deadlineAnswer: Option<string>)
      modifies goals
      ensures Find(id).Some? && Answered(answer) ==>
        var g := goals[Find(id).value];
        && g.content == Trim(answer.value)
        && g.deadline == (if !updateDeadline then old(g.deadline)
                          else if Answered(deadlineAnswer) then deadlineAnswer
                          else None)
      ensures forall j :: 0 <= j < |goals| ==> goals[j].completed == old(goals[j].completed)
      ensures forall j :: 0 <= j < |goals| ==> goals[j].progress == old(goals[j].progress)
      ensures forall j :: 0 <= j < |goals| ==> goals[j].milestones == old(goals[j].milestones)
      ensures forall j :: 0 <= j < |goals| ==>
        (Find(id).Some? && Answered(answer) && goals[j] == goals[Find(id).value]) || unchanged(goals[j])
      ensures old(Valid()) ==> Valid()
    {
      var found := Find(id);
      if found.Some? {
        var goal := goals[found.value];
        if Answered(answer) {
          goal.Edit(Trim(answer.value), updateDeadline, deadlineAnswer);
        }
      }
    }

    /** `addMilestone` (goals.js:299-311): a non-blank answer, trimmed, becomes a new
        uncompleted milestone of the named goal, whose progress is then recomputed. */
    method AddMilestone(goalId: int, answer: Option<string>, milestoneId: int)
      modifies goals
      ensures Find(goalId).Some? && Answered(answer) ==>
        var g := goals[Find(goalId).value];
        && g.milestones == old(g.milestones) + [Milestone(milestoneId, Trim(answer.value), false)]
        && (g.progress, g.completed) == Recomputed(g.milestones, old(g.completed))
        && g.content == old(g.content) && g.deadline == old(g.deadline)
      ensures forall g :: g in goals ==>
        (Find(goalId).Some? && Answered(answer) && g == goals[Find(goalId).value]) || unchanged(g)
      ensures old(Valid()) ==> Valid()
    {
      var found := Find(goalId);
      if found.Some? {
        var goal := goals[found.value];
        if answer.Some? && Trim(answer.value) != [] {
          goal.AddMilestone(Trim(answer.value), milestoneId);
          goal.UpdateProgress();
        }
      }
    }

    /** `toggleMilestone` (goals.js:313-325): flip the first milestone with the id in the
        named goal and recompute the goal's progress; an unknown goal or milestone changes
        nothing. */
    method ToggleMilestone(goalId: int, milestoneId: int)
      modifies goals
      ensures Find(goalId).Some? ==>
        var g := goals[Find(goalId).value];
        var k := FindIndex(old(g.milestones), (m: Milestone) => m.id == milestoneId);
        k.Some? ==>
          && g.milestones == old(g.milestones)[k.value := old(g.milestones)[k.value].(completed := !old(g.milestones)[k.value].completed)]
          && (g.progress, g.completed) == Recomputed(g.milestones, old(g.completed))
          && g.content == old(g.content) && g.deadline == old(g.deadline)
      ensures forall g :: g in goals ==>
        || (Find(goalId).Some? && g == goals[Find(goalId).value]
            && FindIndex(old(g.milestones), (m: Milestone) => m.id == milestoneId).Some?)
        || unchanged(g)
      ensures old(Valid()) ==> Valid()
    {
      var found := Find(goalId);
      if found.Some? {
        var goal := goals[found.value];
        var k := FindIndex(goal.milestones, (m: Milestone) => m.id == milestoneId);
        if k.Some? {
          var milestone := goal.milestones[k.value];
          goal.milestones := goal.milestones[k.value := milestone.(completed := !milestone.completed)];
          goal.UpdateProgress();
        }
      }
    }

    /** `deleteMilestone` (goals.js:327-336): drop every milestone with the id from the
        named goal, keeping the others in order, and recompute its progress. */
    method DeleteMilestone(goalId: int, milestoneId: int)
      modifies goals
      ensures Find(goalId).Some? ==>
        var g := goals[Find(goalId).value];
        && g.milestones == Filter(old(g.milestones), (m: Milestone) => m.id != milestoneId)
        && (g.progress, g.completed) == Recomputed(g.milestones, old(g.completed))
        && g.content == old(g.content) && g.deadline == old(g.deadline)
      ensures forall g :: g in goals ==> (Find(goalId).Some? && g == goals[Find(goalId).value]) || unchanged(g)
      ensures old(Valid()) ==> Valid()
    {
      var found := Find(goalId);
      if found.Some? {
        var goal := goals[found.value];
        goal.milestones := Filter(goal.milestones, (m: Milestone) => m.id != milestoneId);
        goal.UpdateProgress();
      }
    }
  }
}
