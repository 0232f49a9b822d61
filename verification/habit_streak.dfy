/** The habit streak engine of habits.js, on values: a habit's completion history is a
    list of calendar days (a `YYYY-MM-DD` string is written here as its day number,
    days since 1970-01-01; such strings sort in chronological order, so `sort()` on them
    is ascending order on day numbers), and its stored streak is the length of the run
    of consecutive days at the end of the sorted history. */
module HabitStreak {

  type Day = int

  predicate Sorted(s: seq<Day>) {
    forall i, j :: 0 <= i < j < |s| ==> s[i] <= s[j]
  }

  /** Sorted and without repeats: the shape a history keeps when it only ever grows by
      marking a new latest day and shrinks by un-marking it. */
  predicate StrictlySorted(s: seq<Day>) {
    forall i, j :: 0 <= i < j < |s| ==> s[i] < s[j]
  }

  // ---------------------------------------------------------------------------
  // Array.prototype.sort on the history

  function Insert(s: seq<Day>, x: Day): (r: seq<Day>)
    requires Sorted(s)
    ensures Sorted(r) && multiset(r) == multiset(s) + multiset{x}
  {
    if s == [] || x <= s[0] then
      [x] + s
    else
      var rest := Insert(s[1..], x);
      InsertHead(s, x, rest);
      [s[0]] + rest
  }

  lemma InsertHead(s: seq<Day>, x: Day, rest: seq<Day>)
    requires Sorted(s) && s != [] && s[0] < x
    requires Sorted(rest) && multiset(rest) == multiset(s[1..]) + multiset{x}
    ensures Sorted([s[0]] + rest)
    ensures multiset([s[0]] + rest) == multiset(s) + multiset{x}
  {
    TailOf(s);
    forall k | 0 <= k < |rest| ensures s[0] <= rest[k] {
      assert rest[k] in multiset(rest);
      if rest[k] != x {
        assert rest[k] in multiset(s[1..]);
        SortedHeadIsLeast(s, rest[k]);
      }
    }
    ConsSorted(s[0], rest);
  }

  /** A list below its own head stays sorted with that head in front. */
  lemma ConsSorted(h: Day, rest: seq<Day>)
    requires Sorted(rest) && forall k :: 0 <= k < |rest| ==> h <= rest[k]
    ensures Sorted([h] + rest)
  {
  }

  /** The sorted arrangement of `s` (insertion sort). */
  function Sort(s: seq<Day>): (r: seq<Day>)
    ensures Sorted(r) && multiset(r) == multiset(s)
  {
    if s == [] then []
    else
      assert s == s[..|s| - 1] + [s[|s| - 1]];
      Insert(Sort(s[..|s| - 1]), s[|s| - 1])
  }

  /** A sorted list is determined by its elements: two sorted arrangements of the same
      multiset are equal. */
  lemma {:induction false} SortedUnique(a: seq<Day>, b: seq<Day>)
    requires Sorted(a) && Sorted(b) && multiset(a) == multiset(b)
    ensures a == b
  {
    assert |a| == |multiset(a)| == |multiset(b)| == |b|;
    if a != [] {
      assert b[0] in multiset(b) && a[0] in multiset(a);
      SortedHeadIsLeast(a, b[0]);
      SortedHeadIsLeast(b, a[0]);
      assert a[0] == b[0];
      TailOf(a);
      TailOf(b);
      assert multiset(a[1..]) == multiset(b[1..]);
      SortedUnique(a[1..], b[1..]);
    }
  }

  /** The tail of a non-empty list: sorted when the list is, holding its elements but the
      first, and together with the first entry making up the list. */
  lemma TailOf(s: seq<Day>)
    requires s != []
    ensures Sorted(s) ==> Sorted(s[1..])
    ensures multiset(s[1..]) == multiset(s) - multiset{s[0]}
    ensures s == [s[0]] + s[1..]
  {
    assert s == [s[0]] + s[1..];
  }

  /** The first entry of a sorted list is its least element. */
  lemma SortedHeadIsLeast(s: seq<Day>, x: Day)
    requires Sorted(s) && x in s
    ensures s[0] <= x
  {
    var k :| 0 <= k < |s| && s[k] == x;
  }

  /** Sorting a list that is already sorted leaves it as it is. */
  lemma SortOfSorted(s: seq<Day>)
    requires Sorted(s)
    ensures Sort(s) == s
  {
    SortedUnique(Sort(s), s);
  }

  // ---------------------------------------------------------------------------
  // indexOf / splice

  /** `indexOf`: the first position of `x`, or -1. */
  function IndexOf(s: seq<Day>, x: Day): (i: int)
    ensures -1 <= i < |s|
    ensures i >= 0 <==> x in s
    ensures i >= 0 ==> s[i] == x && forall j :: 0 <= j < i ==> s[j] != x
  {
    if s == [] then -1
    else if s[0] == x then 0
    else var k := IndexOf(s[1..], x); if k < 0 then -1 else k + 1
  }

  /** `splice(i, 1)`: `s` without its element at position `i`. */
  function RemoveAt(s: seq<Day>, i: nat): (r: seq<Day>)
    requires i < |s|
    ensures |r| == |s| - 1
    ensures multiset(r) == multiset(s) - multiset{s[i]}
  {
    assert s == s[..i] + [s[i]] + s[i + 1..];
    s[..i] + s[i + 1..]
  }

  // ---------------------------------------------------------------------------
  // Streak as the trailing run

  /** Every step from position `lo` to the end of `s` is exactly one day. */
  predicate ConsecutiveFrom(s: seq<Day>, lo: nat)
    requires lo <= |s|
  {
    forall j :: lo < j < |s| ==> s[j] - s[j - 1] == 1
  }

  /** The number of consecutive days at the end of `s`, counted back from the last entry
      until the first step that is not exactly one day. */
  function TrailingRun(s: seq<Day>): (k: nat)
    ensures k <= |s|
    ensures k == 0 <==> s == []
  {
    if |s| <= 1 then |s|
    else if s[|s| - 1] - s[|s| - 2] == 1 then TrailingRun(s[..|s| - 1]) + 1
    else 1
  }

  /** The trailing run is the longest consecutive tail: the last `TrailingRun(s)` entries
      step by exactly one day, and the entry before them (if any) does not. */
  lemma {:induction false} TrailingRunIsLongestConsecutiveTail(s: seq<Day>)
    requires s != []
    ensures 1 <= TrailingRun(s) <= |s|
    ensures ConsecutiveFrom(s, |s| - TrailingRun(s))
    ensures TrailingRun(s) < |s| ==> s[|s| - TrailingRun(s)] - s[|s| - TrailingRun(s) - 1] != 1
  {
    var n := |s|;
    if n > 1 && s[n - 1] - s[n - 2] == 1 {
      var p := s[..n - 1];
      TrailingRunIsLongestConsecutiveTail(p);
      assert TrailingRun(s) == TrailingRun(p) + 1;
      forall j | n - TrailingRun(s) < j < n ensures s[j] - s[j - 1] == 1 {
        if j < n - 1 {
          assert s[j] == p[j] && s[j - 1] == p[j - 1];
        }
      }
      if TrailingRun(s) < n {
        var b := n - TrailingRun(s);
        assert s[b] == p[b] && s[b - 1] == p[b - 1];
      }
    }
  }

  /** One more day at the end extends the run by one; any other later day starts a new run. */
  lemma TrailingRunAppend(s: seq<Day>, d: Day)
    ensures TrailingRun(s + [d]) == if s != [] && d - s[|s| - 1] == 1 then TrailingRun(s) + 1 else 1
  {
    assert (s + [d])[..|s|] == s;
  }

  // ---------------------------------------------------------------------------
  // Marking and un-marking a day (habits.js updateStreak)

  /** The history and stored streak after `today` is marked complete (habits.js:103-132):
      a day already recorded changes nothing; otherwise the day is added, the history
      re-sorted, and the streak grows by one when the entry just before `today` is
      yesterday, else restarts at one. In the sorted history the entry just before
      `today` is yesterday exactly when yesterday is recorded at all, which is how it is
      stated here; `PrecedingEntryIsYesterday` proves the two agree. */
  function Mark(history: seq<Day>, streak: int, today: Day): (seq<Day>, int) {
    if today in history then (history, streak)
    else (Sort(history + [today]), if today - 1 in history then streak + 1 else 1)
  }

  /** The history and stored streak after `today` is un-marked (habits.js:133-163): a day
      not recorded changes nothing; otherwise its first occurrence is removed, and the
      streak becomes 0 for an empty history, else the trailing run of the re-sorted rest. */
  function Unmark(history: seq<Day>, streak: int, today: Day): (seq<Day>, int) {
    if today !in history then (history, streak)
    else
      var rest := RemoveAt(history, IndexOf(history, today));
      if rest == [] then ([], 0) else (Sort(rest), TrailingRun(Sort(rest)))
  }

  /** Some recorded day is earlier than `day`. */
  predicate HasEarlier(history: seq<Day>, day: Day) {
    exists k :: 0 <= k < |history| && history[k] < day
  }

  /** In a sorted list, the entries before the first occurrence of `x` are smaller than
      `x` and the others are not. */
  lemma SortedAroundIndexOf(r: seq<Day>, x: Day)
    requires Sorted(r) && x in r
    ensures forall j :: 0 <= j < IndexOf(r, x) ==> r[j] < x
    ensures forall j :: IndexOf(r, x) <= j < |r| ==> x <= r[j]
  {
    var i := IndexOf(r, x);
    forall j | 0 <= j < i ensures r[j] < x {
      assert r[j] <= r[i] && r[j] != x;
    }
  }

  /** The elements of the sorted history with `today` added are those of the history and `today`. */
  lemma InSortWithDay(history: seq<Day>, today: Day)
    ensures forall e :: e in Sort(history + [today]) <==> e in history || e == today
  {
    var r := Sort(history + [today]);
    assert multiset(r) == multiset(history) + multiset{today};
    forall e ensures e in r <==> e in history || e == today {
      assert e in r <==> e in multiset(r);
      assert e in history <==> e in multiset(history);
    }
  }

  /** `r` is `history` with `today` added, sorted, and `i` is where `today` first occurs. */
  ghost predicate InsertedAt(history: seq<Day>, today: Day, r: seq<Day>, i: int) {
    && Sorted(r)
    && (forall e :: e in r <==> e in history || e == today)
    && 0 <= i < |r| && r[i] == today
    && (forall j :: 0 <= j < i ==> r[j] < today)
    && (forall j :: i <= j < |r| ==> today <= r[j])
  }

  lemma PrecededIffEarlier(history: seq<Day>, today: Day, r: seq<Day>, i: int)
    requires today !in history && InsertedAt(history, today, r, i)
    ensures i >= 1 <==> HasEarlier(history, today)
  {
    if i >= 1 {
      assert r[i - 1] in r;
      var k :| 0 <= k < |history| && history[k] == r[i - 1];
    }
    if HasEarlier(history, today) {
      var k :| 0 <= k < |history| && history[k] < today;
      assert history[k] in r;
      var j :| 0 <= j < |r| && r[j] == history[k];
    }
  }

  lemma PrecededByYesterdayIffRecorded(history: seq<Day>, today: Day, r: seq<Day>, i: int)
    requires today !in history && InsertedAt(history, today, r, i)
    ensures i >= 1 && r[i - 1] == today - 1 <==> today - 1 in history
  {
    if i >= 1 {
      assert r[i - 1] in r;
    }
    if today - 1 in history {
      assert today - 1 in r;
      var j :| 0 <= j < |r| && r[j] == today - 1;
      assert j < i;
      assert r[j] <= r[i - 1];
    }
  }

  /** Sorting the history with `today` added puts `today` first at the position
      `IndexOf` finds, after the smaller entries. */
  lemma InsertedAtIndexOf(history: seq<Day>, today: Day)
    ensures var r := Sort(history + [today]); InsertedAt(history, today, r, IndexOf(r, today))
  {
    var r := Sort(history + [today]);
    InSortWithDay(history, today);
    SortedAroundIndexOf(r, today);
  }

  /** In the sorted history with `today` inserted, the entry just before the first
      occurrence of `today` exists exactly when some recorded day is earlier than `today`,
      and it is yesterday exactly when yesterday is recorded (habits.js:112-124). */
  lemma {:induction false} PrecedingEntryIsYesterday(history: seq<Day>, today: Day)
    requires today !in history
    ensures var r := Sort(history + [today]); var i := IndexOf(r, today);
      && 0 <= i
      && (i >= 1 <==> HasEarlier(history, today))
      && (i >= 1 && r[i - 1] == today - 1 <==> today - 1 in history)
  {
    var r := Sort(history + [today]);
    var i := IndexOf(r, today);
    InsertedAtIndexOf(history, today);
    PrecededIffEarlier(history, today, r, i);
    PrecededByYesterdayIffRecorded(history, today, r, i);
  }

  /** `Mark` as the source computes it for a new day: the streak grows exactly when the
      entry just before `today` in the re-sorted history is yesterday (habits.js:112-130). */
  lemma MarkByPrecedingEntry(history: seq<Day>, streak: int, today: Day)
    requires today !in history
    ensures var r := Sort(history + [today]); var i := IndexOf(r, today);
      Mark(history, streak, today) == (r, if i >= 1 && r[i - 1] == today - 1 then streak + 1 else 1)
  {
    PrecedingEntryIsYesterday(history, today);
  }

  /** Marking a day already recorded changes neither the history nor the streak
      (habits.js:105); marking a new day adds it exactly once, keeps every other entry,
      leaves the history sorted, and sets the streak to one plus the old streak if
      yesterday is recorded, else one (habits.js:106-130). */
  lemma {:induction false} MarkEffect(history: seq<Day>, streak: int, today: Day)
    ensures today in history ==> Mark(history, streak, today) == (history, streak)
    ensures today !in history ==>
      var (h, s) := Mark(history, streak, today);
      && Sorted(h)
      && multiset(h) == multiset(history) + multiset{today}
      && multiset(h)[today] == 1
      && (!HasEarlier(history, today) ==> s == 1)
      && (today - 1 in history ==> s == streak + 1)
      && (today - 1 !in history ==> s == 1)
  {
    if today !in history {
      assert multiset(history)[today] == 0;
    }
  }

  /** Marking is idempotent: marking the same day twice is marking it once. */
  lemma {:induction false} MarkIdempotent(history: seq<Day>, streak: int, today: Day)
    ensures var (h, s) := Mark(history, streak, today); Mark(h, s, today) == (h, s)
  {
    if today !in history {
      var h := Mark(history, streak, today).0;
      assert today in multiset(h);
    }
  }

  /** Un-marking a day not recorded changes nothing (habits.js:135-136); un-marking a
      recorded day removes one occurrence and nothing else (habits.js:137), empties the
      streak to 0 when no entry is left (habits.js:140-141), and otherwise sets it to the
      trailing run of the sorted rest, between 1 and the history's length
      (habits.js:143-161); `TrailingRunIsLongestConsecutiveTail` says what that run is. */
  lemma {:induction false} UnmarkEffect(history: seq<Day>, streak: int, today: Day)
    ensures today !in history ==> Unmark(history, streak, today) == (history, streak)
    ensures today in history ==>
      var u := Unmark(history, streak, today);
      && Sorted(u.0)
      && multiset(u.0) == multiset(history) - multiset{today}
      && |u.0| == |history| - 1
      && (u.0 == [] ==> u.1 == 0)
      && (u.0 != [] ==> 1 <= u.1 <= |u.0| && u.1 == TrailingRun(u.0))
  {
    if today in history {
      var i := IndexOf(history, today);
      var rest := RemoveAt(history, i);
      assert multiset(rest) == multiset(history) - multiset{today};
      if rest != [] {
        var h := Sort(rest);
        assert |h| == |multiset(h)| == |multiset(rest)| == |rest|;
        assert Unmark(history, streak, today) == (h, TrailingRun(h));
      }
    }
  }

  /** Un-marking undoes marking: for a sorted history without `today`, marking `today` and
      then un-marking it restores the history. */
  lemma {:induction false} UnmarkUndoesMark(history: seq<Day>, streak: int, today: Day)
    requires Sorted(history) && today !in history
    ensures Unmark(Mark(history, streak, today).0, streak, today).0 == history
  {
    var h := Sort(history + [today]);
    assert multiset(h) == multiset(history) + multiset{today};
    assert today in multiset(h);
    var rest := RemoveAt(h, IndexOf(h, today));
    ResortedIsSorted(rest, history);
  }

  /** Re-sorting a rearrangement of a sorted list gives that list back. */
  lemma ResortedIsSorted(rest: seq<Day>, history: seq<Day>)
    requires Sorted(history) && multiset(rest) == multiset(history)
    ensures (if rest == [] then [] else Sort(rest)) == history
  {
    if rest == [] {
      assert |history| == |multiset(history)| == 0;
    } else {
      SortedUnique(Sort(rest), history);
    }
  }

  /** The stored streak is consistent with the history: sorted without repeats, nothing
      later than `today`, and the streak equal to the history's trailing run. */
  predicate Consistent(history: seq<Day>, streak: int, today: Day) {
    && StrictlySorted(history)
    && (forall j :: 0 <= j < |history| ==> history[j] <= today)
    && streak == TrailingRun(history)
  }

  /** A later day added at the end of a consistent history keeps it strictly sorted
      and bounded by that day. */
  lemma AppendLaterDay(history: seq<Day>, today: Day)
    requires StrictlySorted(history) && today !in history
    requires forall j :: 0 <= j < |history| ==> history[j] <= today
    ensures StrictlySorted(history + [today]) && Sorted(history + [today])
    ensures forall j :: 0 <= j < |history + [today]| ==> (history + [today])[j] <= today
  {
    var h := history + [today];
    forall i, j | 0 <= i < j < |h| ensures h[i] < h[j] {
      if j == |history| {
        assert h[i] == history[i] <= today && history[i] != today;
      }
    }
  }

  /** In a strictly sorted history with no day after `today` and `today` itself absent,
      yesterday is recorded exactly when it is the last entry. */
  lemma YesterdayIsLast(history: seq<Day>, today: Day)
    requires StrictlySorted(history) && history != [] && today !in history
    requires forall j :: 0 <= j < |history| ==> history[j] <= today
    ensures today - 1 in history <==> history[|history| - 1] == today - 1
  {
    var last := history[|history| - 1];
    assert last in history;
    if today - 1 in history {
      var k :| 0 <= k < |history| && history[k] == today - 1;
      assert history[k] <= last;
    }
  }

  /** In a strictly sorted history with no day after `today`, a recorded `today` is the
      last entry. */
  lemma TodayIsLast(history: seq<Day>, today: Day)
    requires StrictlySorted(history) && today in history
    requires forall j :: 0 <= j < |history| ==> history[j] <= today
    ensures IndexOf(history, today) == |history| - 1
  {
    var i := IndexOf(history, today);
    assert history[i] <= history[|history| - 1];
  }

  /** A day later than every recorded one, added at the end, keeps the history consistent
      when the streak grows by one exactly if yesterday was recorded. */
  lemma {:induction false} ConsistentAfterAppend(history: seq<Day>, streak: int, today: Day)
    requires Consistent(history, streak, today) && today !in history
    ensures Consistent(history + [today], if today - 1 in history then streak + 1 else 1, today)
  {
    AppendLaterDay(history, today);
    TrailingRunAppend(history, today);
    if history != [] {
      YesterdayIsLast(history, today);
    }
  }

  /** The key invariant of the incremental streak (habits.js:115-131): when the stored
      streak equals the trailing run and no recorded day is later than `today`, marking
      `today` keeps it equal. */
  lemma {:induction false} MarkKeepsStreakConsistent(history: seq<Day>, streak: int, today: Day)
    requires Consistent(history, streak, today)
    ensures var (h, s) := Mark(history, streak, today); Consistent(h, s, today)
  {
    if today !in history {
      ConsistentAfterAppend(history, streak, today);
      AppendLaterDay(history, today);
      SortOfSorted(history + [today]);
    }
  }

  /** A consistent history without its last day is consistent with its own trailing run. */
  lemma {:induction false} ConsistentAfterDrop(history: seq<Day>, streak: int, today: Day)
    requires Consistent(history, streak, today) && history != []
    ensures var rest := history[..|history| - 1];
      Sorted(rest) && Consistent(rest, TrailingRun(rest), today)
  {
  }

  /** The same invariant for un-marking (habits.js:145-161): un-marking recomputes the
      streak from the remaining history, so the equality holds afterwards. */
  lemma {:induction false} UnmarkKeepsStreakConsistent(history: seq<Day>, streak: int, today: Day)
    requires Consistent(history, streak, today)
    ensures var (h, s) := Unmark(history, streak, today); Consistent(h, s, today)
  {
    if today in history {
      TodayIsLast(history, today);
      var rest := history[..|history| - 1];
      assert RemoveAt(history, |history| - 1) == rest;
      ConsistentAfterDrop(history, streak, today);
      SortOfSorted(rest);
    }
  }
}
