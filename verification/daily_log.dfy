/** The daily log page (daily-log.js): log entries (tasks, notes and events) dated to a
    day, a current date moved a day at a time, and the migration of selected entries to
    another date. Instants are milliseconds since the epoch; `Date.now()` ids and
    timestamps, the clock and the answers to `prompt`/`confirm` are parameters. */
module DailyLog {
  import opened Common

  /** A log entry (daily-log.js:3-12). Its type and date never change. */
  class LogEntry {
    const id: int
    var content: string
    const entryType: string
    const date: int
    var completed: bool
    const createdAt: int

    constructor (id: int, content: string, entryType: string, date: int, completed: bool, createdAt: int)
      ensures this.id == id && this.content == content && this.entryType == entryType
      ensures this.date == date && this.completed == completed && this.createdAt == createdAt
    {
      this.id := id;
      this.content := content;
      this.entryType := entryType;
      this.date := date;
      this.completed := completed;
      this.createdAt := createdAt;
    }
  }

  /** An entry's state at one moment. */
  datatype EntryItem = EntryItem(id: int, content: string, entryType: string, date: int, completed: bool)

  function FirstWithId(items: seq<EntryItem>, id: int): (r: Option<nat>)
    ensures r.Some? ==> r.value < |items| && items[r.value].id == id
    ensures r.None? ==> forall j :: 0 <= j < |items| ==> items[j].id != id
  {
    FindIndex(items, (e: EntryItem) => e.id == id)
  }

  predicate UniqueIds(items: seq<EntryItem>) {
    forall i, j :: 0 <= i < j < |items| ==> items[i].id != items[j].id
  }

  predicate Distinct(ids: seq<int>) {
    forall a, b :: 0 <= a < b < |ids| ==> ids[a] != ids[b]
  }

  // ---------------------------------------------------------------------------
  // Migration, on entry states

  /** One turn of the migration loop (daily-log.js:220-239): if an entry has the id, a copy
      with the stamp as id, dated `target` and with the entry's completion flag, is
      appended, and the entry itself, when it is an unfinished task, becomes completed. */
  function MigrateOne(items: seq<EntryItem>, id: int, stamp: int, target: int): (r: seq<EntryItem>)
    ensures FirstWithId(items, id).None? ==> r == items
    ensures FirstWithId(items, id).Some? ==> |r| == |items| + 1 && r[|items|].date == target
    ensures FirstWithId(items, id).Some? ==>
      var k := FirstWithId(items, id).value;
      && r[|items|] == EntryItem(stamp, items[k].content, items[k].entryType, target, items[k].completed)
      && r[k] == items[k].(completed := items[k].completed || items[k].entryType == "task")
      && forall j :: 0 <= j < |items| && j != k ==> r[j] == items[j]
  {
    match FirstWithId(items, id)
    case None => items
    case Some(k) =>
      var entry := items[k];
      var copy := EntryItem(stamp, entry.content, entry.entryType, target, entry.completed);
      var original := if entry.entryType == "task" && !entry.completed then entry.(completed := true) else entry;
      items[k := original] + [copy]
  }

  /** The whole loop: the selected ids in order, the i-th with the i-th `Date.now()`. */
  function MigrateAll(items: seq<EntryItem>, selected: seq<int>, stamps: seq<int>, target: int): seq<EntryItem>
    requires |stamps| == |selected|
    decreases |selected|
  {
    if selected == [] then items
    else
      var n := |selected|;
      MigrateOne(MigrateAll(items, selected[..n - 1], stamps[..n - 1], target), selected[n - 1], stamps[n - 1], target)
  }

  /** The entries after migration, independent of the loop: every selected task is
      completed, and nothing else changes. */
  function MarkMigrated(items: seq<EntryItem>, selected: seq<int>): (r: seq<EntryItem>)
    ensures |r| == |items|
    ensures forall i :: 0 <= i < |items| ==> r[i].id == items[i].id
  {
    seq(|items|, i requires 0 <= i < |items| =>
      if items[i].id in selected && items[i].entryType == "task" then items[i].(completed := true) else items[i])
  }

  /** ...followed by one copy of each selected entry that exists, in selection order, with
      its original completion flag and dated `target`. */
  function Copies(items: seq<EntryItem>, selected: seq<int>, stamps: seq<int>, target: int): (r: seq<EntryItem>)
    requires |stamps| == |selected|
    ensures |r| <= |selected|
    ensures forall j :: 0 <= j < |r| ==> r[j].id in stamps && r[j].date == target
    decreases |selected|
  {
    if selected == [] then []
    else
      var n := |selected|;
      var earlier := Copies(items, selected[..n - 1], stamps[..n - 1], target);
      match FirstWithId(items, selected[n - 1])
      case None => earlier
      case Some(k) =>
        earlier + [EntryItem(stamps[n - 1], items[k].content, items[k].entryType, target, items[k].completed)]
  }

  /** The new ids are new: none is an existing id or a selected one. */
  predicate FreshStamps(items: seq<EntryItem>, selected: seq<int>, stamps: seq<int>) {
    forall m :: 0 <= m < |stamps| ==>
      stamps[m] !in selected && forall i :: 0 <= i < |items| ==> items[i].id != stamps[m]
  }

  /** The step for an id no entry has: the loop turn and the closed form both leave
      everything as it was. */
  lemma {:induction false} MigrateStepAbsent(items: seq<EntryItem>, p: seq<int>, sp: seq<int>, x: int, target: int)
    requires |sp| == |p|
    requires forall i :: 0 <= i < |items| ==> items[i].id != x
    requires x !in sp
    ensures var S := MarkMigrated(items, p) + Copies(items, p, sp, target);
      MigrateOne(S, x, 0, target) == S
    ensures MarkMigrated(items, p + [x]) == MarkMigrated(items, p)
  {
    var M, C := MarkMigrated(items, p), Copies(items, p, sp, target);
    var S := M + C;
    forall j | 0 <= j < |S|
      ensures S[j].id != x
    {
      if j >= |M| {
        assert C[j - |M|].id in sp;
      }
    }
    assert FirstWithId(S, x) == None;
  }

  /** The step for the id of entry k, selected for the first time: the loop turn finds
      entry k unchanged, and completing it is what the closed form does. */
  lemma {:induction false} MigrateStepPresent(items: seq<EntryItem>, p: seq<int>, sp: seq<int>, x: int, k: nat, target: int)
    requires |sp| == |p|
    requires UniqueIds(items) && k < |items| && items[k].id == x && x !in p
    ensures var S := MarkMigrated(items, p) + Copies(items, p, sp, target);
      && FirstWithId(S, x) == Some(k) && S[k] == items[k]
      && var entry := items[k];
         var original := if entry.entryType == "task" && !entry.completed then entry.(completed := true) else entry;
         && S[k := original] == MarkMigrated(items, p)[k := original] + Copies(items, p, sp, target)
         && MarkMigrated(items, p + [x]) == MarkMigrated(items, p)[k := original]
  {
    var M, C := MarkMigrated(items, p), Copies(items, p, sp, target);
    var S := M + C;
    forall j | 0 <= j < k
      ensures S[j].id != x
    {
      assert items[j].id != items[k].id;
    }
    FindIndexIs(S, (e: EntryItem) => e.id == x, k);
    var entry := items[k];
    var original := if entry.entryType == "task" && !entry.completed then entry.(completed := true) else entry;
    forall i | 0 <= i < |items| && i != k
      ensures items[i].id != x
    {
      if i < k {
        assert items[i].id != items[k].id;
      } else {
        assert items[k].id != items[i].id;
      }
    }
  }

  /** With distinct entry ids, a selection without repeats and new ids that are really
      new, migration appends one copy per selected entry and completes the selected tasks,
      and does nothing else. */
  lemma {:induction false} MigrateAllClosedForm(items: seq<EntryItem>, selected: seq<int>, stamps: seq<int>, target: int)
    requires |stamps| == |selected|
    requires UniqueIds(items) && Distinct(selected) && FreshStamps(items, selected, stamps)
    ensures MigrateAll(items, selected, stamps, target) == MarkMigrated(items, selected) + Copies(items, selected, stamps, target)
    decreases |selected|
  {
    if selected == [] {
      assert MarkMigrated(items, selected) == items;
    } else {
      var n := |selected|;
      var p, sp, x, st := selected[..n - 1], stamps[..n - 1], selected[n - 1], stamps[n - 1];
      assert selected == p + [x];
      assert FreshStamps(items, p, sp) by {
        forall m | 0 <= m < |sp|
          ensures sp[m] !in p
        {
          assert sp[m] == stamps[m];
        }
      }
      assert Distinct(p);
      MigrateAllClosedForm(items, p, sp, target);
      assert x !in p;
      match FirstWithId(items, x)
      case None =>
        assert x !in sp;
        MigrateStepAbsent(items, p, sp, x, target);
      case Some(k) =>
        MigrateStepPresent(items, p, sp, x, k, target);
    }
  }

  // ---------------------------------------------------------------------------
  // The manager

  /** The daily log manager (daily-log.js:14-267). */
  class DailyLogManager {
    var entries: seq<LogEntry>
    var currentDate: int

    /** No entry object is listed twice. */
    predicate Valid()
      reads this
    {
      NoRepeats(entries)
    }

    constructor (now: int)
      ensures entries == [] && currentDate == now
      ensures Valid()
    {
      entries := [];
      currentDate := now;
    }

    /** The entries' current states. */
    function Items(): (r: seq<EntryItem>)
      reads this, entries
      ensures |r| == |entries|
      ensures forall j :: 0 <= j < |entries| ==>
        r[j] == EntryItem(entries[j].id, entries[j].content, entries[j].entryType, entries[j].date, entries[j].completed)
    {
      seq(|entries|, j requires 0 <= j < |entries| reads this, entries =>
        EntryItem(entries[j].id, entries[j].content, entries[j].entryType, entries[j].date, entries[j].completed))
    }

    /** `this.entries.find(e => e.id === id)`, as a position. */
    function Find(id: int): (r: Option<nat>)
      reads this
      ensures r.Some? ==> r.value < |entries| && entries[r.value].id == id
      ensures r.None? ==> forall j :: 0 <= j < |entries| ==> entries[j].id != id
    {
      FindIndex(entries, (e: LogEntry) => e.id == id)
    }

    /** Looking an id up among the objects and among their states finds the same position. */
    lemma FindAgrees(id: int)
      ensures FirstWithId(Items(), id) == Find(id)
    {
    }

    /** The previous-day button (daily-log.js:47-48): one day back. */
    method PrevDay()
      modifies this`currentDate
      ensures currentDate == old(currentDate) - MsPerDay
      ensures DayOf(currentDate) == DayOf(old(currentDate)) - 1
    {
      currentDate := currentDate - MsPerDay;
      DayOfShift(old(currentDate), -1);
    }

    /** The next-day button (daily-log.js:55-56): one day forward. */
    method NextDay()
      modifies this`currentDate
      ensures currentDate == old(currentDate) + MsPerDay
      ensures DayOf(currentDate) == DayOf(old(currentDate)) + 1
    {
      currentDate := currentDate + MsPerDay;
      DayOfShift(old(currentDate), 1);
    }

    /** `addEntry` (daily-log.js:82-99): a blank input adds nothing; otherwise one
        uncompleted entry of the chosen type, dated at the current date, is appended. */
    method AddEntry(input: string, entryType: string, id: int, now: int)
      requires Valid()
      modifies this
      ensures Valid() && currentDate == old(currentDate)
      ensures Trim(input) == [] ==> entries == old(entries)
      ensures Trim(input) != [] ==>
        && |entries| == |old(entries)| + 1 && entries[..|old(entries)|] == old(entries)
        && fresh(entries[|entries| - 1])
        && Items() == old(Items()) + [EntryItem(id, Trim(input), entryType, currentDate, false)]
    {
      var content := Trim(input);
      if content != [] {
        var entry := new LogEntry(id, content, entryType, currentDate, false, now);
        entries := entries + [entry];
      }
    }

    /** `renderEntries` (daily-log.js:101-113): exactly the entries dated on the current
        date's calendar day, in order. */
    function EntriesShown(): (r: seq<LogEntry>)
      reads this
      ensures forall j :: 0 <= j < |r| ==> r[j] in entries && DayOf(r[j].date) == DayOf(currentDate)
      ensures forall j :: 0 <= j < |entries| && DayOf(entries[j].date) == DayOf(currentDate) ==> entries[j] in r
    {
      var day := DayOf(currentDate);
      Filter(entries, (e: LogEntry) => DayOf(e.date) == day)
    }

    /** `toggleComplete` (daily-log.js:176-183): flip the first entry with the id when it is
        a task; notes, events and unknown ids change nothing. */
    method ToggleComplete(id: int)
      requires Valid()
      modifies entries
      ensures Find(id).Some? && entries[Find(id).value].entryType == "task" ==>
        Items() == old(Items())[Find(id).value := old(Items())[Find(id).value].(completed := !old(Items())[Find(id).value].completed)]
      ensures !(Find(id).Some? && entries[Find(id).value].entryType == "task") ==> Items() == old(Items())
    {
      var found := Find(id);
      if found.Some? {
        var entry := entries[found.value];
        if entry.entryType == "task" {
          entry.completed := !entry.completed;
        }
      }
    }

    /** `deleteEntry` (daily-log.js:185-191): once confirmed, keep every entry with another
        id, in order. */
    method DeleteEntry(id: int, confirmed: bool)
      requires Valid()
      modifies this
      ensures Valid() && currentDate == old(currentDate)
      ensures !confirmed ==> entries == old(entries)
      ensures confirmed ==> entries == Filter(old(entries), (e: LogEntry) => e.id != id)
      ensures confirmed ==> forall j :: 0 <= j < |entries| ==> entries[j].id != id
    {
      if confirmed {
        entries := Filter(entries, (e: LogEntry) => e.id != id);
        FilterKeepsNoRepeats(old(entries), (e: LogEntry) => e.id != id);
      }
    }

    /** The entry at position `k` gets `newContent`; every other entry keeps its state. */
    method SetContent(k: nat, newContent: string)
      requires Valid() && k < |entries|
      modifies entries[k]
      ensures Items() == old(Items())[k := old(Items())[k].(content := newContent)]
    {
      ghost var before := Items();
      entries[k].content := newContent;
      forall j | 0 <= j < |entries|
        ensures Items()[j] == before[k := before[k].(content := newContent)][j]
      {
        if j != k {
          assert entries[j] != entries[k];
        }
      }
    }

    /** `editEntry` (daily-log.js:193-203): a non-blank answer, trimmed, becomes the content
        of the first entry with the id; otherwise nothing changes. */
    method EditEntry(id: int, answer: Option<string>)
      requires Valid()
      modifies entries
      ensures Find(id).Some? && Answered(answer) ==>
        Items() == old(Items())[Find(id).value := old(Items())[Find(id).value].(content := Trim(answer.value))]
      ensures !(Find(id).Some? && Answered(answer)) ==> Items() == old(Items())
    {
      var found := Find(id);
      if found.Some? {
        if answer.Some? && Trim(answer.value) != [] {
          SetContent(found.value, Trim(answer.value));
        }
      }
    }

    /** The body of the migration loop (daily-log.js:220-239) for one selected id, with
        `stamp` as the `Date.now()` reading. */
    method MigrateSelected(id: int, target: int, stamp: int, now: int)
      requires Valid()
      modifies this, entries
      ensures Valid() && currentDate == old(currentDate)
      ensures forall k :: 0 <= k < |entries| ==> entries[k] in old(entries) || fresh(entries[k])
      ensures Items() == MigrateOne(old(Items()), id, stamp, target)
    {
      var found := Find(id);
      FindAgrees(id);
      if found.Some? {
        var entry := entries[found.value];
        var migratedEntry := new LogEntry(stamp, entry.content, entry.entryType, target, entry.completed, now);
        entries := entries + [migratedEntry];
        if entry.entryType == "task" && !entry.completed {
          entry.completed := true;
        }
      }
    }

    /** `migrateEntries` (daily-log.js:205-246): with no selection or no target date
        nothing changes; otherwise each selected id, in order, goes through one turn of the
        migration loop, the i-th with the i-th `Date.now()` reading as the copy's id. */
    method MigrateEntries(selected: seq<int>, target: Option<int>, stamps: seq<int>, now: int)
      requires Valid()
      requires |stamps| == |selected|
      modifies this, entries
      ensures Valid() && currentDate == old(currentDate)
      ensures selected == [] || target.None? ==> entries == old(entries) && Items() == old(Items())
      ensures selected != [] && target.Some? ==>
        Items() == MigrateAll(old(Items()), selected, stamps, target.value)
    {
      if |selected| == 0 {
        return;
      }
      if target.None? {
        return;
      }
      var i := 0;
      while i < |selected|
        invariant 0 <= i <= |selected|
        invariant Valid() && currentDate == old(currentDate)
        invariant forall k :: 0 <= k < |entries| ==> entries[k] in old(entries) || fresh(entries[k])
        invariant Items() == MigrateAll(old(Items()), selected[..i], stamps[..i], target.value)
      {
        MigrateSelected(selected[i], target.value, stamps[i], now);
        assert selected[..i + 1][..i] == selected[..i];
        assert stamps[..i + 1][..i] == stamps[..i];
        i := i + 1;
      }
      assert selected[..i] == selected && stamps[..i] == stamps;
    }
  }
}
