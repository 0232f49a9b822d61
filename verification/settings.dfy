/** The settings page (settings.js): the appearance preferences with their bounded font-size
    stepper, and the storage keys that export, import and clear read and write. Storage is
    a map from key to stored value; the JSON text of a value is not modelled, and the
    dialog answers (the parsed file, the confirmations) are parameters. */
module SettingsPage {
  import opened Common

  /** The preferences object (settings.js:15-20). */
  datatype Settings = Settings(theme: string, colorScheme: string, font: string, fontSize: int)

  const DefaultSettings := Settings("light", "default", "Inter", 16)
  const MinFontSize := 12
  const MaxFontSize := 24

  /** A value kept in storage: the preferences, a stored collection of records, or plain
      text (such as the login flags). */
  datatype Stored = SettingsValue(settings: Settings) | Records(items: seq<string>) | Text(text: string)

  const SettingsKey := "bulletBytesSettings"
  const TasksKey := "tasks"
  const HabitsKey := "habits"
  const DailyLogKey := "dailyLogEntries"
  const GoalsKey := "goals"

  /** The keys the page owns: the preferences and the four collections. */
  const AppKeys: set<string> := {SettingsKey, TasksKey, HabitsKey, DailyLogKey, GoalsKey}

  /** A backup file's contents (settings.js:230-236); a field is `None` when the file lacks
      it or holds a value JavaScript treats as false. */
  datatype Bundle = Bundle(settings: Option<Settings>, tasks: Option<Stored>, habits: Option<Stored>,
                           dailyLogEntries: Option<Stored>, goals: Option<Stored>)

  /** One step down (settings.js:67-68): only above the minimum. */
  function Decreased(size: int): (r: int)
    ensures MinFontSize <= size <= MaxFontSize ==> MinFontSize <= r <= MaxFontSize
    ensures r == size || r == size - 1
    ensures r == size <==> size <= MinFontSize
  {
    if size > MinFontSize then size - 1 else size
  }

  /** One step up (settings.js:77-78): only below the maximum. */
  function Increased(size: int): (r: int)
    ensures MinFontSize <= size <= MaxFontSize ==> MinFontSize <= r <= MaxFontSize
    ensures r == size || r == size + 1
    ensures r == size <==> size >= MaxFontSize
  {
    if size < MaxFontSize then size + 1 else size
  }

  /** A step up undone by a step down, and a step down undone by a step up, inside the
      stepper's range. */
  lemma StepsUndo(size: int)
    ensures MinFontSize <= size < MaxFontSize ==> Decreased(Increased(size)) == size
    ensures MinFontSize < size <= MaxFontSize ==> Increased(Decreased(size)) == size
  {
  }

  /** `localStorage.getItem(key) || '[]'`, parsed: the stored collection, or an empty one. */
  function StoredOrEmpty(storage: map<string, Stored>, key: string): Stored
  {
    if key in storage then storage[key] else Records([])
  }

  /** The bundle `exportData` writes (settings.js:230-236). */
  function Exported(settings: Settings, storage: map<string, Stored>): (b: Bundle)
    ensures b.settings == Some(settings)
    ensures b.tasks.Some? && b.habits.Some? && b.dailyLogEntries.Some? && b.goals.Some?
  {
    Bundle(Some(settings), Some(StoredOrEmpty(storage, TasksKey)), Some(StoredOrEmpty(storage, HabitsKey)),
           Some(StoredOrEmpty(storage, DailyLogKey)), Some(StoredOrEmpty(storage, GoalsKey)))
  }

  /** The storage after a confirmed import of `b` (settings.js:280-284): the preferences and
      the four collections, an absent collection written as an empty one. */
  function Imported(storage: map<string, Stored>, b: Bundle): (s: map<string, Stored>)
    requires b.settings.Some?
    ensures s.Keys == storage.Keys + AppKeys
    ensures s[SettingsKey] == SettingsValue(b.settings.value)
    ensures forall k :: k in storage && k !in AppKeys ==> s[k] == storage[k]
  {
    storage[SettingsKey := SettingsValue(b.settings.value)]
           [TasksKey := b.tasks.GetOr(Records([]))]
           [HabitsKey := b.habits.GetOr(Records([]))]
           [DailyLogKey := b.dailyLogEntries.GetOr(Records([]))]
           [GoalsKey := b.goals.GetOr(Records([]))]
  }

  /** `b` with every absent collection made an empty one. */
  function Filled(b: Bundle): Bundle
  {
    Bundle(b.settings, Some(b.tasks.GetOr(Records([]))), Some(b.habits.GetOr(Records([]))),
           Some(b.dailyLogEntries.GetOr(Records([]))), Some(b.goals.GetOr(Records([]))))
  }

  /** Exporting what an import wrote gives back the imported bundle, absent collections as
      empty ones. */
  lemma {:induction false} ExportAfterImport(storage: map<string, Stored>, b: Bundle)
    requires b.settings.Some?
    ensures Exported(b.settings.value, Imported(storage, b)) == Filled(b)
  {
    var s := Imported(storage, b);
    assert s[TasksKey] == b.tasks.GetOr(Records([]));
    assert s[HabitsKey] == b.habits.GetOr(Records([]));
    assert s[DailyLogKey] == b.dailyLogEntries.GetOr(Records([]));
  }

  /** Importing an export into any storage reproduces the exported preferences and
      collections, and keeps every key the page does not own. */
  lemma {:induction false} ImportAfterExport(settings: Settings, source: map<string, Stored>, target: map<string, Stored>)
    ensures var s := Imported(target, Exported(settings, source));
      && s[SettingsKey] == SettingsValue(settings)
      && s[TasksKey] == StoredOrEmpty(source, TasksKey)
      && s[HabitsKey] == StoredOrEmpty(source, HabitsKey)
      && s[DailyLogKey] == StoredOrEmpty(source, DailyLogKey)
      && s[GoalsKey] == StoredOrEmpty(source, GoalsKey)
      && forall k :: k in target && k !in AppKeys ==> k in s && s[k] == target[k]
  {
    var s := Imported(target, Exported(settings, source));
    assert s[TasksKey] == StoredOrEmpty(source, TasksKey);
    assert s[HabitsKey] == StoredOrEmpty(source, HabitsKey);
    assert s[DailyLogKey] == StoredOrEmpty(source, DailyLogKey);
  }

  /** The settings manager (settings.js:3-319). `storage` is the page's view of the
      browser's storage. */
  class SettingsManager {
    var settings: Settings
    var storage: map<string, Stored>

    /** Construction loads the stored preferences when there are any (settings.js:15-23,
        99-104). */
    constructor (storage: map<string, Stored>)
      ensures this.storage == storage
      ensures SettingsKey in storage && storage[SettingsKey].SettingsValue? ==>
        settings == storage[SettingsKey].settings
      ensures !(SettingsKey in storage && storage[SettingsKey].SettingsValue?) ==> settings == DefaultSettings
    {
      settings := DefaultSettings;
      this.storage := storage;
      new;
      LoadSettings();
    }

    /** `loadSettings` (settings.js:99-104). */
    method LoadSettings()
      modifies this`settings
      ensures SettingsKey in storage && storage[SettingsKey].SettingsValue? ==>
        settings == storage[SettingsKey].settings
      ensures !(SettingsKey in storage && storage[SettingsKey].SettingsValue?) ==> settings == old(settings)
    {
      if SettingsKey in storage && storage[SettingsKey].SettingsValue? {
        settings := storage[SettingsKey].settings;
      }
    }

    /** `saveSettings` (settings.js:106-108): only the preferences key is written. */
    method SaveSettings()
      modifies this`storage
      ensures storage == old(storage)[SettingsKey := SettingsValue(settings)]
    {
      storage := storage[SettingsKey := SettingsValue(settings)];
    }

    /** The theme, colour-scheme and font choices (settings.js:30-61): the one preference
        changes and is saved. */
    method ChooseTheme(theme: string)
      modifies this
      ensures settings == old(settings).(theme := theme)
      ensures storage == old(storage)[SettingsKey := SettingsValue(settings)]
    {
      settings := settings.(theme := theme);
      SaveSettings();
    }

    method ChooseColorScheme(colorScheme: string)
      modifies this
      ensures settings == old(settings).(colorScheme := colorScheme)
      ensures storage == old(storage)[SettingsKey := SettingsValue(settings)]
    {
      settings := settings.(colorScheme := colorScheme);
      SaveSettings();
    }

    method ChooseFont(font: string)
      modifies this
      ensures settings == old(settings).(font := font)
      ensures storage == old(storage)[SettingsKey := SettingsValue(settings)]
    {
      settings := settings.(font := font);
      SaveSettings();
    }

    /** The decrease button (settings.js:66-72): at the minimum nothing changes, not even
        storage; otherwise one step down, saved. The size stays in 12..24. */
    method DecreaseFontSize()
      modifies this
      ensures settings == old(settings).(fontSize := Decreased(old(settings.fontSize)))
      ensures old(settings.fontSize) > MinFontSize ==> storage == old(storage)[SettingsKey := SettingsValue(settings)]
      ensures old(settings.fontSize) <= MinFontSize ==> storage == old(storage)
      ensures MinFontSize <= old(settings.fontSize) <= MaxFontSize ==> MinFontSize <= settings.fontSize <= MaxFontSize
    {
      if settings.fontSize > MinFontSize {
        settings := settings.(fontSize := settings.fontSize - 1);
        SaveSettings();
      }
    }

    /** The increase button (settings.js:75-83), the mirror image of `DecreaseFontSize`. */
    method IncreaseFontSize()
      modifies this
      ensures settings == old(settings).(fontSize := Increased(old(settings.fontSize)))
      ensures old(settings.fontSize) < MaxFontSize ==> storage == old(storage)[SettingsKey := SettingsValue(settings)]
      ensures old(settings.fontSize) >= MaxFontSize ==> storage == old(storage)
      ensures MinFontSize <= old(settings.fontSize) <= MaxFontSize ==> MinFontSize <= settings.fontSize <= MaxFontSize
    {
      if settings.fontSize < MaxFontSize {
        settings := settings.(fontSize := settings.fontSize + 1);
        SaveSettings();
      }
    }

    /** `exportData` (settings.js:227-255): the current preferences and the four stored
        collections, each an empty collection when nothing is stored. */
    function ExportData(): (b: Bundle)
      reads this
      ensures b == Exported(settings, storage)
      ensures b.settings == Some(settings)
      ensures TasksKey in storage ==> b.tasks == Some(storage[TasksKey])
      ensures TasksKey !in storage ==> b.tasks == Some(Records([]))
    {
      Exported(settings, storage)
    }

    /** `importData` (settings.js:257-302): an unreadable file (`None`), a bundle without
        preferences, or a declined confirmation writes nothing; otherwise the preferences
        and the four collections are written, absent collections as empty ones, and the
        preferences are reloaded. */
    method ImportData(file: Option<Bundle>, confirmed: bool) returns (imported: bool)
      modifies this
      ensures imported <==> file.Some? && file.value.settings.Some? && confirmed
      ensures !imported ==> storage == old(storage) && settings == old(settings)
      ensures imported ==> storage == Imported(old(storage), file.value)
      ensures imported ==> settings == file.value.settings.value
    {
      if file.None? {
        return false;
      }
      var importedData := file.value;
      if importedData.settings.None? {
        return false;
      }
      if !confirmed {
        return false;
      }
      storage := storage[SettingsKey := SettingsValue(importedData.settings.value)];
      storage := storage[TasksKey := importedData.tasks.GetOr(Records([]))];
      storage := storage[HabitsKey := importedData.habits.GetOr(Records([]))];
      storage := storage[DailyLogKey := importedData.dailyLogEntries.GetOr(Records([]))];
      storage := storage[GoalsKey := importedData.goals.GetOr(Records([]))];
      LoadSettings();
      return true;
    }

    /** `clearData` (settings.js:304-318): only after both confirmations, remove the five
        keys the page owns and no other (the login keys stay). */
    method ClearData(confirmed: bool, confirmedAgain: bool)
      modifies this`storage
      ensures confirmed && confirmedAgain ==> storage == old(storage) - AppKeys
      ensures !(confirmed && confirmedAgain) ==> storage == old(storage)
      ensures forall k :: k !in AppKeys ==> (k in storage <==> k in old(storage))
      ensures forall k :: k in storage ==> k in old(storage) && storage[k] == old(storage)[k]
    {
      if confirmed {
        if confirmedAgain {
          storage := storage - {TasksKey};
          storage := storage - {HabitsKey};
          storage := storage - {DailyLogKey};
          storage := storage - {GoalsKey};
          storage := storage - {SettingsKey};
          assert storage == old(storage) - AppKeys;
        }
      }
    }
  }
}
