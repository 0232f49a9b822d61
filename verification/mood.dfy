/** The mood tracker page (mood.js): a mood and a note per calendar day, kept in a
    dictionary keyed by the day's `YYYY-MM-DD` date, with a current date that moves a
    number of days at a time. `formatDate` keys depend only on the UTC calendar day of an
    instant (they are its ISO date), one key per day, so the dictionary is keyed here by
    that day's number. The clock is a parameter. */
module Mood {
  import opened Common

  /** `date.toISOString().split('T')[0]` (mood.js:48-50) on the ISO text: the text before
      the first 'T', or all of it when there is none. */
  function DatePart(iso: string): (r: string)
    ensures |r| <= |iso| && r == iso[..|r|]
    ensures forall k :: 0 <= k < |r| ==> r[k] != 'T'
    ensures |r| < |iso| ==> iso[|r|] == 'T'
  {
    if iso == [] || iso[0] == 'T' then [] else [iso[0]] + DatePart(iso[1..])
  }

  /** For an ISO timestamp `date` + "T" + `time`, the date part is `date`. */
  lemma {:induction false} DatePartOfTimestamp(date: string, time: string)
    requires forall k :: 0 <= k < |date| ==> date[k] != 'T'
    ensures DatePart(date + "T" + time) == date
  {
    if date != [] {
      assert (date + "T" + time)[1..] == date[1..] + "T" + time;
      DatePartOfTimestamp(date[1..], time);
    }
  }

  /** A stored entry (mood.js:105-109); `timestamp` is the instant it was saved. */
  datatype MoodEntry = MoodEntry(mood: string, notes: string, timestamp: int)

  /** What `loadMoodForCurrentDate` (mood.js:72-93) shows for a day: nothing when the day
      has no entry; otherwise the stored notes, and the stored mood when a mood button
      carries it. */
  function Restored(moodData: map<int, MoodEntry>, day: int, moodButtons: seq<string>): (r: (Option<string>, string))
    ensures day !in moodData ==> r == (None, "")
    ensures day in moodData ==> r.1 == moodData[day].notes
    ensures r.0.Some? <==> day in moodData && moodData[day].mood in moodButtons
    ensures r.0.Some? ==> r.0.value == moodData[day].mood
  {
    if day in moodData then
      var entry := moodData[day];
      var button := FindIndex(moodButtons, (b: string) => b == entry.mood);
      (if button.Some? then Some(entry.mood) else None, entry.notes)
    else (None, "")
  }

  /** Saving and then loading the same day restores the mood (when a button carries it)
      and the trimmed notes; saving on one day leaves what every other day restores. */
  lemma {:induction false} SaveThenLoad(moodData: map<int, MoodEntry>, day: int, other: int,
                                        mood: string, notes: string, now: int, moodButtons: seq<string>)
    ensures var saved := moodData[day := MoodEntry(mood, Trim(notes), now)];
      && Restored(saved, day, moodButtons) == (if mood in moodButtons then Some(mood) else None, Trim(notes))
      && (other != day ==> Restored(saved, other, moodButtons) == Restored(moodData, other, moodButtons))
  {
    var saved := moodData[day := MoodEntry(mood, Trim(notes), now)];
    assert saved[day] == MoodEntry(mood, Trim(notes), now);
    if other != day {
      assert (other in saved <==> other in moodData) && (other in moodData ==> saved[other] == moodData[other]);
    }
  }

  /** The mood tracker (mood.js:2-115). `moodData` is the dictionary kept in storage. */
  class MoodTracker {
    var currentDate: int
    var selectedMood: Option<string>
    var notes: string
    const moodButtons: seq<string>
    var moodData: map<int, MoodEntry>

    constructor (now: int, moodButtons: seq<string>, moodData: map<int, MoodEntry>)
      ensures currentDate == now && this.moodButtons == moodButtons && this.moodData == moodData
      ensures (selectedMood, notes) == Restored(moodData, DayOf(now), moodButtons)
    {
      currentDate := now;
      this.moodButtons := moodButtons;
      this.moodData := moodData;
      selectedMood := None;
      notes := "";
      new;
      LoadMoodForCurrentDate();
    }

    /** `selectMood` (mood.js:40-46): the clicked button's mood becomes the selection. */
    method SelectMood(button: nat)
      requires button < |moodButtons|
      modifies this`selectedMood
      ensures selectedMood == Some(moodButtons[button])
    {
      selectedMood := Some(moodButtons[button]);
    }

    /** `loadMoodForCurrentDate` (mood.js:72-93). */
    method LoadMoodForCurrentDate()
      modifies this`selectedMood, this`notes
      ensures (selectedMood, notes) == Restored(moodData, DayOf(currentDate), moodButtons)
    {
      var currentDateStr := DayOf(currentDate);
      notes := "";
      selectedMood := None;
      if currentDateStr in moodData {
        var todaysMood := moodData[currentDateStr];
        var moodButton := FindIndex(moodButtons, (b: string) => b == todaysMood.mood);
        if moodButton.Some? {
          selectedMood := Some(todaysMood.mood);
        }
        notes := todaysMood.notes;
      }
    }

    /** `saveMoodEntry` (mood.js:95-114): without a selected mood nothing is stored;
        otherwise the mood and the trimmed notes, stamped `now`, replace the entry of the
        current day and no other. */
    method SaveMoodEntry(now: int) returns (saved: bool)
      modifies this`moodData
      ensures saved <==> selectedMood.Some? && selectedMood.value != ""
      ensures !saved ==> moodData == old(moodData)
      ensures saved ==> moodData == old(moodData[DayOf(currentDate) := MoodEntry(selectedMood.value, Trim(notes), now)])
      ensures saved ==> forall d :: d != DayOf(currentDate) ==>
        (d in moodData <==> d in old(moodData)) && (d in moodData ==> moodData[d] == old(moodData)[d])
    {
      var mood := selectedMood;
      if mood.None? || mood.value == "" {
        return false;
      }
      var currentDateStr := DayOf(currentDate);
      var entry := MoodEntry(mood.value, Trim(notes), now);
      moodData := moodData[currentDateStr := entry];
      saved := true;
    }

    /** `changeDate` (mood.js:57-61): move `days` days and show what is stored for the new
        day. */
    method ChangeDate(days: int)
      modifies this`currentDate, this`selectedMood, this`notes
      ensures currentDate == old(currentDate) + days * MsPerDay
      ensures DayOf(currentDate) == DayOf(old(currentDate)) + days
      ensures (selectedMood, notes) == Restored(moodData, DayOf(currentDate), moodButtons)
    {
      currentDate := currentDate + days * MsPerDay;
      DayOfShift(old(currentDate), days);
      LoadMoodForCurrentDate();
    }
  }
}
